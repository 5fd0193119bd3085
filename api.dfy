/**
 * The URL building of the browser API client (frontend/contract/js/api.js): the base URL,
 * the query string made from a request's parameters, and the full request URL.
 *
 * The form encoding URLSearchParams applies to keys and values is the parameter `encode`.
 */
module Api {
  import opened Common

  /** The server the client talks to when no base URL is configured. */
  const LocalServer := "http://127.0.0.1:8000"

  /** DEFAULT_BASE: the configured base trimmed, or the local server when it is blank or missing. */
  function DefaultBase(configured: Option<string>): (r: string)
    ensures r != [] && Stripped(r)
    ensures configured.Some? && !IsBlank(configured.value) ==> r == Trim(configured.value)
    ensures configured.None? || IsBlank(configured.value) ==> r == LocalServer
  {
    var t := Trim(configured.GetOr(""));
    if t == [] then LocalServer else t
  }

  /** `s.replace(/\/$/, '')`: one trailing slash, if any, removed. */
  function DropTrailingSlash(s: string): (r: string)
    ensures s != [] && s[|s| - 1] == '/' ==> r + "/" == s
    ensures s == [] || s[|s| - 1] != '/' ==> r == s
  {
    if s != [] && s[|s| - 1] == '/' then s[..|s| - 1] else s
  }

  /** BASE */
  function Base(configured: Option<string>): (r: string)
    ensures r == DefaultBase(configured) || r + "/" == DefaultBase(configured)
    ensures configured.None? || IsBlank(configured.value) ==> r == LocalServer
  {
    DropTrailingSlash(DefaultBase(configured))
  }

  /** A base configured with or without one trailing slash gives the same BASE. */
  lemma TrailingSlashIgnored(x: string)
    requires x != [] && Stripped(x) && x[|x| - 1] != '/'
    ensures Base(Some(x + "/")) == x && Base(Some(x)) == x
  {
    TrimStripped(x);
    assert Stripped(x + "/") by { assert (x + "/")[0] == x[0]; }
    TrimStripped(x + "/");
    assert (x + "/")[..|x|] == x;
  }

  /** A request parameter's value as the caller passes it. */
  datatype Param = Undefined | Null | Text(s: string) | Int(n: int) | Bool(b: bool)

  /** `v === undefined || v === null || v === ''`: the parameter is left out. */
  predicate Skipped(v: Param) {
    v.Undefined? || v.Null? || v == Text("")
  }

  /** `String(v)` */
  function ParamString(v: Param): (r: string)
    requires !Skipped(v)
    ensures r != []
  {
    match v
    case Text(s) => s
    case Int(n) => IntToString(n)
    case Bool(b) => if b then "true" else "false"
  }

  /** The parameters that are not skipped, in their order. */
  function Kept(params: seq<(string, Param)>): (r: seq<(string, Param)>)
    ensures forall i :: 0 <= i < |r| ==> !Skipped(r[i].1)
  {
    if params == [] then []
    else if Skipped(params[0].1) then Kept(params[1..])
    else [params[0]] + Kept(params[1..])
  }

  /**
   * The key/value pairs appended to the URLSearchParams, in the order of the keys: each
   * parameter that is not skipped, its value as `String(v)`.
   */
  function Entries(params: seq<(string, Param)>): (r: seq<(string, string)>)
    ensures |r| <= |params|
    ensures r == [] <==> forall i :: 0 <= i < |params| ==> Skipped(params[i].1)
    ensures forall i :: 0 <= i < |r| ==> r[i].1 != []
    ensures |r| == |Kept(params)|
    ensures forall i :: 0 <= i < |r| ==> r[i] == (Kept(params)[i].0, ParamString(Kept(params)[i].1))
  {
    if params == [] then []
    else if Skipped(params[0].1) then
      var rest := Entries(params[1..]);
      assert forall i :: 1 <= i < |params| ==> params[i] == params[1..][i - 1];
      rest
    else [(params[0].0, ParamString(params[0].1))] + Entries(params[1..])
  }

  /** The entries of two parameter lists laid end to end are their entries laid end to end. */
  lemma {:induction false} EntriesConcat(a: seq<(string, Param)>, b: seq<(string, Param)>)
    ensures Entries(a + b) == Entries(a) + Entries(b)
  {
    if a == [] {
      assert a + b == b;
    } else {
      assert (a + b)[1..] == a[1..] + b;
      EntriesConcat(a[1..], b);
    }
  }

  /** One serialized pair: `key=value`, both encoded. */
  function Pair(e: (string, string), encode: string -> string): (r: string)
    ensures r != []
  {
    encode(e.0) + "=" + encode(e.1)
  }

  /** `usp.toString()`: the encoded pairs joined by '&'. */
  function Serialized(entries: seq<(string, string)>, encode: string -> string): (r: string)
    ensures r == [] <==> entries == []
  {
    if entries == [] then []
    else if |entries| == 1 then Pair(entries[0], encode)
    else Pair(entries[0], encode) + "&" + Serialized(entries[1..], encode)
  }

  /** Serializing two non-empty lists laid end to end joins their serializations with '&'. */
  lemma {:induction false} SerializedConcat(a: seq<(string, string)>, b: seq<(string, string)>, encode: string -> string)
    requires a != [] && b != []
    ensures Serialized(a + b, encode) == Serialized(a, encode) + "&" + Serialized(b, encode)
  {
    if |a| == 1 {
      assert (a + b)[1..] == b;
    } else {
      assert (a + b)[1..] == a[1..] + b;
      SerializedConcat(a[1..], b, encode);
    }
  }

  /**
   * toQuery: '' without parameters or when every parameter is skipped; otherwise '?'
   * followed by the serialized entries.
   */
  function ToQuery(params: Option<seq<(string, Param)>>, encode: string -> string): (r: string)
    ensures r == [] <==> params.None? || forall i :: 0 <= i < |params.value| ==> Skipped(params.value[i].1)
    ensures r != [] ==> r[0] == '?' && r[1..] == Serialized(Entries(params.value), encode)
  {
    if params.None? then []
    else
      var s := Serialized(Entries(params.value), encode);
      if s == [] then [] else "?" + s
  }

  /** The query string depends on the parameters only through their entries. */
  lemma SameEntriesSameQuery(p: seq<(string, Param)>, q: seq<(string, Param)>, encode: string -> string)
    requires Entries(p) == Entries(q)
    ensures ToQuery(Some(p), encode) == ToQuery(Some(q), encode)
  {
  }

  /** A skipped parameter anywhere in the list leaves the query string as it was without it. */
  lemma SkippedParamIgnored(a: seq<(string, Param)>, key: string, v: Param, b: seq<(string, Param)>, encode: string -> string)
    requires Skipped(v)
    ensures ToQuery(Some(a + [(key, v)] + b), encode) == ToQuery(Some(a + b), encode)
  {
    SkippedEntryIgnored(a, key, v, b);
    SameEntriesSameQuery(a + [(key, v)] + b, a + b, encode);
  }

  /** A skipped parameter contributes no entry. */
  lemma SkippedEntryIgnored(a: seq<(string, Param)>, key: string, v: Param, b: seq<(string, Param)>)
    requires Skipped(v)
    ensures Entries(a + [(key, v)] + b) == Entries(a + b)
  {
    var skipped: seq<(string, Param)> := [(key, v)];
    assert Entries(skipped) == [];
    EntriesConcat(a + skipped, b);
    EntriesConcat(a, skipped);
    EntriesConcat(a, b);
  }

  /** The path's `replace` of its leading slashes: every leading slash removed. */
  function StripLeadingSlashes(s: string): (r: string)
    ensures |r| <= |s| && r == s[|s| - |r|..]
    ensures r == [] || r[0] != '/'
    ensures forall i :: 0 <= i < |s| - |r| ==> s[i] == '/'
  {
    if s != [] && s[0] == '/' then
      var r := StripLeadingSlashes(s[1..]);
      assert forall i :: 1 <= i < |s| ==> s[i] == s[1..][i - 1];
      r
    else s
  }

  /**
   * buildUrl: the base, exactly one slash, the path without its leading slashes, and the
   * query string (`String(path || '')`: a missing path is '').
   */
  function BuildUrl(base: string, path: Option<string>, params: Option<seq<(string, Param)>>,
                    encode: string -> string): (url: string)
    ensures |url| >= |base| + 1 && url[..|base| + 1] == base + "/"
    ensures |url| > |base| + 1 ==> url[|base| + 1] != '/'
    ensures url[|base| + 1..] == StripLeadingSlashes(path.GetOr("")) + ToQuery(params, encode)
    ensures url[|base| + 1..] == [] <==> StripLeadingSlashes(path.GetOr("")) == [] && ToQuery(params, encode) == []
  {
    var clean := StripLeadingSlashes(path.GetOr(""));
    var query := ToQuery(params, encode);
    Joined(base, clean, query);
    base + "/" + clean + query
  }

  /** The base, one slash, a path that does not start with a slash, and a query. */
  lemma Joined(base: string, clean: string, query: string)
    requires clean == [] || clean[0] != '/'
    requires query == [] || query[0] == '?'
    ensures var url := base + "/" + clean + query;
      |url| >= |base| + 1 && url[..|base| + 1] == base + "/"
      && (|url| > |base| + 1 ==> url[|base| + 1] != '/')
      && url[|base| + 1..] == clean + query
      && (url[|base| + 1..] == [] <==> clean == [] && query == [])
  {
    var url := base + "/" + clean + query;
    assert url[|base| + 1..] == clean + query;
  }

  /** Leading slashes in the path make no difference to the URL. */
  lemma LeadingSlashesIgnored(base: string, path: string, params: Option<seq<(string, Param)>>,
                               encode: string -> string)
    ensures BuildUrl(base, Some("/" + path), params, encode) == BuildUrl(base, Some(path), params, encode)
    ensures BuildUrl(base, Some(StripLeadingSlashes(path)), params, encode) == BuildUrl(base, Some(path), params, encode)
  {
    assert ("/" + path)[1..] == path;
    assert StripLeadingSlashes("/" + path) == StripLeadingSlashes(path);
    StripTwice(path);
  }

  /** Stripping the leading slashes twice strips nothing more. */
  lemma StripTwice(s: string)
    ensures StripLeadingSlashes(StripLeadingSlashes(s)) == StripLeadingSlashes(s)
  {
  }
}
