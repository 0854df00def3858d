/**
 * `_extract_upload_token`: the upload token inside a signing record, taken from its `token`
 * key or else from the `token` query parameter of its signed URL. The URL is cut the way
 * `urlparse` finds the query and the query is split the way `parse_qs` splits it (without
 * percent-decoding).
 */
module UploadToken {
  import opened Wrappers
  import opened Text
  import opened ObjectStore

  /** The query parameter that carries the upload token. */
  const TOKEN_PARAM := "token"

  /** The part of a URL before its first `#`: `urlparse` cuts off the fragment first. */
  function BeforeFragment(url: string): (b: string)
    ensures b <= url && '#' !in b
    ensures |b| < |url| ==> url[|b|] == '#'
  {
    match IndexOf(url, '#')
    case Some(i) => url[..i]
    case None => url
  }

  /** `urlparse(url).query`: the text after the first `?` of the part before the first `#`. */
  function QueryOf(url: string): (q: string)
    ensures '#' !in q
    ensures var b := BeforeFragment(url);
            '?' in b ==> exists i :: 0 <= i < |b| && b[i] == '?' && '?' !in b[..i] && q == b[i + 1..]
    ensures '?' !in BeforeFragment(url) ==> q == ""
  {
    var b := BeforeFragment(url);
    match IndexOf(b, '?')
    case Some(i) => b[i + 1..]
    case None => ""
  }

  /** One `&`-separated field of a query read as `name=value`; fields without `=` and fields
      with an empty value are dropped, as `parse_qs` does without `keep_blank_values`. */
  function FieldValue(field: string, name: string): (v: Option<string>)
    ensures v.Some? <==> exists i :: 0 <= i < |field| - 1 && field[i] == '=' && '=' !in field[..i] && field[..i] == name
    ensures v.Some? ==> v.value != [] && name + "=" + v.value == field
  {
    match IndexOf(field, '=')
    case None => None
    case Some(i) =>
      if field[..i] == name && i + 1 < |field| then
        assert field == field[..i] + "=" + field[i + 1..];
        Some(field[i + 1..])
      else
        assert forall j :: 0 <= j < |field| && field[j] == '=' && '=' !in field[..j] ==> j == i;
        None
  }

  /** `parse_qs(query).get(name)[0]`: the value of the first kept field with that name. */
  function FirstValue(fields: seq<string>, name: string): (r: Option<string>)
    ensures r.Some? ==> exists k :: 0 <= k < |fields| && FieldValue(fields[k], name) == r
                                   && forall j :: 0 <= j < k ==> FieldValue(fields[j], name).None?
    ensures r.None? ==> forall k :: 0 <= k < |fields| ==> FieldValue(fields[k], name).None?
    decreases |fields|
  {
    if |fields| == 0 then None
    else if FieldValue(fields[0], name).Some? then FieldValue(fields[0], name)
    else
      var rest := FirstValue(fields[1..], name);
      assert forall k :: 1 <= k < |fields| ==> fields[k] == fields[1..][k - 1];
      rest
  }

  /** The `token` query parameter of a signed URL, if it has a non-empty one. */
  function QueryToken(url: string): (t: Option<string>)
    ensures t.Some? ==> t.value != "" && '&' !in t.value && '#' !in t.value
    ensures var fields := Split(QueryOf(url), '&');
            t.Some? <==> exists k :: 0 <= k < |fields| && FieldValue(fields[k], TOKEN_PARAM).Some?
    ensures var fields := Split(QueryOf(url), '&');
            t.Some? ==> exists k :: 0 <= k < |fields| && fields[k] == TOKEN_PARAM + "=" + t.value
                                    && forall j :: 0 <= j < k ==> FieldValue(fields[j], TOKEN_PARAM).None?
  {
    TokenFieldShape(Split(QueryOf(url), '&'), QueryOf(url));
    FirstValue(Split(QueryOf(url), '&'), TOKEN_PARAM)
  }

  /** The token picked from the fields of a query holds no separator of the query. */
  lemma TokenFieldShape(fields: seq<string>, query: string)
    requires '#' !in query && fields == Split(query, '&')
    ensures var t := FirstValue(fields, TOKEN_PARAM);
            t.Some? ==> t.value != "" && '&' !in t.value && '#' !in t.value
  {
    var t := FirstValue(fields, TOKEN_PARAM);
    if t.Some? {
      var k :| 0 <= k < |fields| && FieldValue(fields[k], TOKEN_PARAM) == t;
      assert fields[k] == TOKEN_PARAM + "=" + t.value;
      assert forall c :: c in t.value ==> c in fields[k];
      SplitPartsOfFree(query, '&', '#', k);
    }
  }

  /** A character absent from a string is absent from each piece of its split. */
  lemma {:induction false} SplitPartsOfFree(s: string, sep: char, c: char, k: nat)
    requires c !in s && k < |Split(s, sep)|
    ensures c !in Split(s, sep)[k]
    decreases |s|
  {
    match IndexOf(s, sep)
    case None =>
    case Some(i) =>
      if k > 0 {
        assert Split(s, sep)[k] == Split(s[i + 1..], sep)[k - 1];
        SplitPartsOfFree(s[i + 1..], sep, c, k - 1);
      } else {
        assert forall j :: 0 <= j < i ==> s[..i][j] == s[j];
      }
  }

  /** `result.get("signed_url") or result.get("signedURL")`, with an empty string as falsy. */
  function SignedUrlOf(rec: StoreRecord): (url: Option<string>)
    ensures url.Some? && url.value != "" <==>
              (rec.signedUrl.Some? && rec.signedUrl.value != "") || (rec.signedURL.Some? && rec.signedURL.value != "")
    ensures url.Some? && url.value != "" ==>
              url == (if rec.signedUrl.Some? && rec.signedUrl.value != "" then rec.signedUrl else rec.signedURL)
  {
    if rec.signedUrl.Some? && rec.signedUrl.value != "" then rec.signedUrl else rec.signedURL
  }

  /**
   * `_extract_upload_token` on a signing record: a `token` key decides alone (its string, or
   * nothing for a non-string); without one, the token comes from the signed URL's query.
   */
  function ExtractUploadToken(rec: StoreRecord): (t: Option<string>)
    ensures rec.token.TextToken? ==> t == Some(rec.token.text)
    ensures rec.token.OtherToken? ==> t.None?
    ensures rec.token.NoToken? && rec.signedUrl.Some? && rec.signedUrl.value != "" ==>
              t == QueryToken(rec.signedUrl.value)
    ensures (rec.token.NoToken? && !(rec.signedUrl.Some? && rec.signedUrl.value != "")
             && rec.signedURL.Some? && rec.signedURL.value != "") ==>
              t == QueryToken(rec.signedURL.value)
    ensures (rec.token.NoToken? && !(rec.signedUrl.Some? && rec.signedUrl.value != "")
             && !(rec.signedURL.Some? && rec.signedURL.value != "")) ==> t.None?
    ensures rec.token.NoToken? && t.Some? ==> t.value != "" && '&' !in t.value
    ensures IsEmpty(rec) ==> t.None?
  {
    match rec.token
    case TextToken(v) => Some(v)
    case OtherToken => None
    case NoToken =>
      var url := SignedUrlOf(rec);
      if url.None? || url.value == "" then None else QueryToken(url.value)
  }

  /** The query of `base?query` is `query` when neither part has a fragment mark and the base
      has no other `?`. */
  lemma {:induction false} QueryAfterMark(base: string, query: string)
    requires '?' !in base && '#' !in base && '#' !in query
    ensures QueryOf(base + "?" + query) == query
  {
    var url := base + "?" + query;
    assert '#' !in url by {
      assert forall i :: 0 <= i < |url| ==> url[i] in base || url[i] == '?' || url[i] in query;
    }
    assert url[|base|] == '?' && url[..|base|] == base;
    IndexOfFirst(url, '?', |base|);
    assert url[|base| + 1..] == query;
  }

  /** The field `token=t` carries `t`. */
  lemma {:induction false} TokenFieldValue(t: string)
    requires t != ""
    ensures FieldValue(TOKEN_PARAM + "=" + t, TOKEN_PARAM) == Some(t)
  {
    var field := TOKEN_PARAM + "=" + t;
    assert field[|TOKEN_PARAM|] == '=' && field[..|TOKEN_PARAM|] == TOKEN_PARAM;
    IndexOfFirst(field, '=', |TOKEN_PARAM|);
    assert field[|TOKEN_PARAM| + 1..] == t;
  }

  /** A signed URL of the form `base?token=t` gives back `t`. */
  lemma {:induction false} QueryTokenRoundTrip(base: string, t: string)
    requires '?' !in base && '#' !in base
    requires t != "" && '&' !in t && '#' !in t
    ensures QueryToken(base + "?" + TOKEN_PARAM + "=" + t) == Some(t)
  {
    var query := TOKEN_PARAM + "=" + t;
    assert base + "?" + TOKEN_PARAM + "=" + t == base + "?" + query;
    QueryAfterMark(base, query);
    LoneTokenField(t);
  }

  /** The query `token=t` is one field, and it carries `t`. */
  lemma {:induction false} LoneTokenField(t: string)
    requires t != "" && '&' !in t
    ensures FirstValue(Split(TOKEN_PARAM + "=" + t, '&'), TOKEN_PARAM) == Some(t)
  {
    var name := TOKEN_PARAM + "=";
    var query := name + t;
    assert '&' !in name by { assert name == "token="; }
    SplitWithoutSeparator(query, '&');
    TokenFieldValue(t);
    assert FirstValue([query], TOKEN_PARAM) == Some(t);
  }

  /** A blank `token` field is skipped: `base?token=&token=t` gives back `t`. */
  lemma {:induction false} BlankTokenFieldIsSkipped(base: string, t: string)
    requires '?' !in base && '#' !in base
    requires t != "" && '&' !in t && '#' !in t
    ensures QueryToken(base + "?" + TOKEN_PARAM + "=&" + TOKEN_PARAM + "=" + t) == Some(t)
  {
    var blank := TOKEN_PARAM + "=";
    var last := TOKEN_PARAM + "=" + t;
    var query := blank + "&" + last;
    assert base + "?" + TOKEN_PARAM + "=&" + TOKEN_PARAM + "=" + t == base + "?" + query;
    QueryAfterMark(base, query);
    BlankThenToken(blank, last, t);
  }

  /** The fields of `token=&token=t`, read in order. */
  lemma {:induction false} BlankThenToken(blank: string, last: string, t: string)
    requires blank == TOKEN_PARAM + "=" && last == TOKEN_PARAM + "=" + t
    requires t != "" && '&' !in t
    ensures FirstValue(Split(blank + "&" + last, '&'), TOKEN_PARAM) == Some(t)
  {
    var query := blank + "&" + last;
    assert query[|blank|] == '&' && query[..|blank|] == blank;
    IndexOfFirst(query, '&', |blank|);
    assert query[|blank| + 1..] == last;
    assert '&' !in last;
    assert Split(query, '&') == [blank, last];
    assert blank[|TOKEN_PARAM|] == '=' && blank[..|TOKEN_PARAM|] == TOKEN_PARAM;
    IndexOfFirst(blank, '=', |TOKEN_PARAM|);
    assert FieldValue(blank, TOKEN_PARAM) == None;
    TokenFieldValue(t);
    assert FirstValue([last], TOKEN_PARAM) == Some(t);
    assert [blank, last][1..] == [last];
  }

  /** A string `token` key wins over any signed URL the record also carries. */
  lemma TokenKeyWins(rec: StoreRecord, url: string)
    requires rec.token.TextToken?
    ensures ExtractUploadToken(rec.(signedUrl := Some(url))) == Some(rec.token.text)
    ensures ExtractUploadToken(rec.(signedURL := Some(url))) == Some(rec.token.text)
  {
  }

  /** A record without a `token` key yields the token of its `signed_url`, or of its
      `signedURL` when `signed_url` is missing or empty. */
  lemma TokenFromSignedUrl(rec: StoreRecord, base: string, t: string)
    requires rec.token.NoToken?
    requires '?' !in base && '#' !in base && t != "" && '&' !in t && '#' !in t
    ensures rec.signedUrl == Some(base + "?" + TOKEN_PARAM + "=" + t) ==> ExtractUploadToken(rec) == Some(t)
    ensures (rec.signedUrl.None? || rec.signedUrl == Some("")) && rec.signedURL == Some(base + "?" + TOKEN_PARAM + "=" + t)
            ==> ExtractUploadToken(rec) == Some(t)
  {
    QueryTokenRoundTrip(base, t);
  }
}
