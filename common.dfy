/** Helpers shared by the backend routers and the browser scripts: optional values, the
    error taxonomy of the HTTP handlers, ASCII string operations (strip/trim, lower-casing,
    substring search), decimal rendering, and offset/limit pagination. */
module Common {

  datatype Option<+T> = None | Some(value: T) {
    function GetOr(default: T): T {
      match this
      case Some(v) => v
      case None => default
    }
  }

  /** The errors a handler surfaces to its caller. */
  datatype Error =
    | NotFound          // HTTP 404
    | Conflict          // HTTP 409: a uniqueness check failed
    | BadRequest        // HTTP 400: a referenced row does not exist
    | ValidationError   // HTTP 422: the request does not match its schema
    | IntegrityError    // the database refused the commit (constraint, key or foreign key)
    | DataError         // the database refused the query (negative OFFSET or LIMIT)

  datatype Result<+T> = Ok(value: T) | Err(error: Error)

  function Max(a: int, b: int): int { if a < b then b else a }
  function Min(a: int, b: int): int { if a < b then a else b }
  function MaxReal(a: real, b: real): real { if a < b then b else a }

  // ---------------------------------------------------------------------------------------
  // Whitespace stripping (Python str.strip(), JavaScript String.prototype.trim)
  // ---------------------------------------------------------------------------------------

  predicate IsSpace(c: char) {
    c == ' ' || c == '\t' || c == '\n' || c == '\r' || c == '\U{000B}' || c == '\U{000C}'
  }

  predicate AllSpace(s: string) {
    forall i :: 0 <= i < |s| ==> IsSpace(s[i])
  }

  /** A stripped string: empty, or neither starts nor ends with whitespace. */
  predicate Stripped(s: string) {
    s == [] || (!IsSpace(s[0]) && !IsSpace(s[|s| - 1]))
  }

  /** Number of whitespace characters at the front of `s`. */
  function LeadingSpaces(s: string): (n: nat)
    ensures n <= |s|
    ensures AllSpace(s[..n])
    ensures n < |s| ==> !IsSpace(s[n])
  {
    if s == [] || !IsSpace(s[0]) then 0
    else
      var k := LeadingSpaces(s[1..]);
      assert s[1..][..k] == s[1..k + 1];
      1 + k
  }

  /** Number of whitespace characters at the back of `s`. */
  function TrailingSpaces(s: string): (n: nat)
    ensures n <= |s|
    ensures AllSpace(s[|s| - n..])
    ensures n < |s| ==> !IsSpace(s[|s| - n - 1])
  {
    if s == [] || !IsSpace(s[|s| - 1]) then 0
    else
      var t := s[..|s| - 1];
      var k := TrailingSpaces(t);
      assert s[|s| - 1 - k..] == t[|t| - k..] + [s[|s| - 1]];
      assert k < |t| ==> s[|s| - k - 2] == t[|t| - k - 1];
      1 + k
  }

  /** `s` without its leading and trailing whitespace. */
  function Trim(s: string): (r: string)
    ensures Stripped(r)
    ensures |r| <= |s|
    ensures r == [] ==> AllSpace(s)
    ensures r != [] ==> exists i :: 0 <= i <= |s| - |r| && s[i..i + |r|] == r
                          && AllSpace(s[..i]) && AllSpace(s[i + |r|..])
  {
    var l := LeadingSpaces(s);
    if l == |s| then
      assert s[..l] == s;
      []
    else
      var rest := s[l..];
      var t := TrailingSpaces(rest);
      assert t < |rest| by { assert !IsSpace(rest[0]); }
      var r := rest[..|rest| - t];
      assert s[l..l + |r|] == r;
      assert s[l + |r|..] == rest[|rest| - t..];
      r
  }

  /** Stripping is idempotent, and a stripped string is its own strip. */
  lemma {:induction false} TrimStripped(s: string)
    requires Stripped(s)
    ensures Trim(s) == s
  {
    if s != [] {
      assert LeadingSpaces(s) == 0;
      assert TrailingSpaces(s[0..]) == 0 by { assert s[0..] == s; }
      assert s[0..][..|s|] == s;
    }
  }

  lemma TrimIdempotent(s: string)
    ensures Trim(Trim(s)) == Trim(s)
  {
    TrimStripped(Trim(s));
  }

  /** Falsy after `.trim()` in JavaScript / after `.strip()` in Python. */
  predicate IsBlank(s: string) { Trim(s) == [] }

  // ---------------------------------------------------------------------------------------
  // ASCII case folding and substring search
  // ---------------------------------------------------------------------------------------

  function LowerChar(c: char): char {
    if 'A' <= c <= 'Z' then (c as int + 32) as char else c
  }

  /** Lower-cases the ASCII letters of `s` and leaves every other character alone. */
  function ToLower(s: string): (r: string)
    ensures |r| == |s|
    ensures forall i :: 0 <= i < |s| ==> r[i] == LowerChar(s[i])
  {
    seq(|s|, i requires 0 <= i < |s| => LowerChar(s[i]))
  }

  lemma ToLowerIdempotent(s: string)
    ensures ToLower(ToLower(s)) == ToLower(s)
  {
  }

  /** `sub` occurs in `s` as a contiguous piece (JavaScript `includes`, SQL `LIKE '%sub%'`). */
  predicate Contains(s: string, sub: string)
    decreases |s|
  {
    sub <= s || (s != [] && Contains(s[1..], sub))
  }

  /** The occurrence as an index: `sub` starts at some position of `s`. */
  lemma {:induction false} ContainsAt(s: string, sub: string)
    ensures Contains(s, sub) <==> exists i :: 0 <= i <= |s| && sub <= s[i..]
  {
    if s != [] {
      ContainsAt(s[1..], sub);
      if Contains(s[1..], sub) {
        var i :| 0 <= i <= |s[1..]| && sub <= s[1..][i..];
        assert s[1..][i..] == s[i + 1..];
      }
      if exists i :: 0 <= i <= |s| && sub <= s[i..] {
        var i :| 0 <= i <= |s| && sub <= s[i..];
        if i > 0 {
          assert s[1..][i - 1..] == s[i..];
        }
      }
    } else {
      assert s[0..] == s;
    }
  }

  /** SQL `ILIKE '%sub%'` and JavaScript `s.toLowerCase().includes(sub.toLowerCase())`. */
  predicate ContainsIgnoreCase(s: string, sub: string) {
    Contains(ToLower(s), ToLower(sub))
  }

  // ---------------------------------------------------------------------------------------
  // Decimal rendering of integers (JavaScript String(n), Python str(n))
  // ---------------------------------------------------------------------------------------

  predicate IsDigit(c: char) { '0' <= c <= '9' }

  predicate AllDigits(s: string) {
    forall i :: 0 <= i < |s| ==> IsDigit(s[i])
  }

  function DigitChar(d: nat): (c: char)
    requires d < 10
    ensures IsDigit(c)
  {
    ('0' as int + d) as char
  }

  function DigitValue(c: char): (d: nat)
    requires IsDigit(c)
    ensures d < 10
  {
    c as int - '0' as int
  }

  /** The value of a string of decimal digits (0 for the empty string). */
  function DigitsValue(s: string): nat
    requires AllDigits(s)
  {
    if s == [] then 0 else 10 * DigitsValue(s[..|s| - 1]) + DigitValue(s[|s| - 1])
  }

  /** `n` written in decimal, without leading zeros. */
  function NatToString(n: nat): (r: string)
    ensures r != [] && AllDigits(r)
    ensures |r| > 1 ==> r[0] != '0'
  {
    if n < 10 then [DigitChar(n)]
    else
      var prefix := NatToString(n / 10);
      assert prefix[0] != '0' by {
        if |prefix| == 1 { assert prefix[0] == DigitChar(n / 10) && n / 10 != 0; }
      }
      prefix + [DigitChar(n % 10)]
  }

  /** Reading back the decimal rendering gives the number: the rendering loses nothing. */
  lemma {:induction false} NatToStringRoundTrip(n: nat)
    ensures DigitsValue(NatToString(n)) == n
  {
    if n >= 10 {
      NatToStringRoundTrip(n / 10);
      var r := NatToString(n);
      assert r[..|r| - 1] == NatToString(n / 10);
    }
  }

  /** Distinct numbers have distinct renderings. */
  lemma NatToStringInjective(m: nat, n: nat)
    requires NatToString(m) == NatToString(n)
    ensures m == n
  {
    NatToStringRoundTrip(m);
    NatToStringRoundTrip(n);
  }

  /** `n` written in decimal with a leading '-' when negative. */
  function IntToString(n: int): (r: string)
    ensures r != []
  {
    if n < 0 then "-" + NatToString(-n) else NatToString(n)
  }

  /** JavaScript `s.padStart(width, c)`. */
  function PadStart(s: string, width: nat, c: char): (r: string)
    ensures |r| == Max(|s|, width)
    ensures r[|r| - |s|..] == s
    ensures forall i :: 0 <= i < |r| - |s| ==> r[i] == c
  {
    if |s| >= width then s else seq(width - |s|, _ => c) + s
  }

  // ---------------------------------------------------------------------------------------
  // Query results: ORDER BY id, OFFSET, LIMIT
  // ---------------------------------------------------------------------------------------

  predicate StrictlyIncreasing(s: seq<int>) {
    forall i, j :: 0 <= i < j < |s| ==> s[i] < s[j]
  }

  lemma EmptyWithoutElements<T>(s: set<T>)
    requires forall x :: x !in s
    ensures s == {}
  {
  }

  /** A non-empty set has an element (the witness the such-that statements below rely on). */
  lemma NonEmptyHasElement<T>(s: set<T>)
    requires s != {}
    ensures exists x :: x in s
  {
    if forall x :: x !in s {
      EmptyWithoutElements(s);
      assert false;
    }
  }

  /** Some element of a non-empty set. */
  ghost function Pick<T>(s: set<T>): (x: T)
    requires s != {}
    ensures x in s
  {
    NonEmptyHasElement(s);
    var x :| x in s;
    x
  }

  lemma {:induction false} MinExists(s: set<int>)
    requires s != {}
    ensures exists m :: m in s && forall x :: x in s ==> m <= x
    decreases |s|
  {
    var x := Pick(s);
    var rest := s - {x};
    if rest == {} {
      forall y | y in s
        ensures x <= y
      {
        assert y in rest || y == x;
      }
    } else {
      MinExists(rest);
      var m :| m in rest && forall y :: y in rest ==> m <= y;
      var best := if x < m then x else m;
      forall y | y in s
        ensures best <= y
      {
        if y != x { assert y in rest; }
      }
      assert best in s;
    }
  }

  function SetMin(s: set<int>): (m: int)
    requires s != {}
    ensures m in s && forall x :: x in s ==> m <= x
  {
    MinExists(s);
    var m :| m in s && forall x :: x in s ==> m <= x;
    m
  }

  /** The elements of `s` in ascending order (a query with ORDER BY on the key). */
  function SortedKeys(s: set<int>): (r: seq<int>)
    ensures StrictlyIncreasing(r)
    ensures |r| == |s|
    ensures forall x :: x in s <==> x in r
    decreases |s|
  {
    if s == {} then []
    else
      var m := SetMin(s);
      var rest := SortedKeys(s - {m});
      [m] + rest
  }

  /** OFFSET `offset` LIMIT `limit` on a result list, both already non-negative. */
  function Page<T>(s: seq<T>, offset: nat, limit: nat): (r: seq<T>)
    ensures |r| == Max(0, Min(|s| - offset, limit))
    ensures forall i :: 0 <= i < |r| ==> r[i] == s[offset + i]
  {
    if offset >= |s| then [] else s[offset..Min(|s|, offset + limit)]
  }

  /** OFFSET/LIMIT as PostgreSQL executes them: a negative value is refused. */
  function PageChecked<T>(s: seq<T>, skip: int, limit: int): (r: Result<seq<T>>)
    ensures r.Err? <==> skip < 0 || limit < 0
    ensures r.Ok? ==> r.value == Page(s, skip, limit)
  {
    if skip < 0 || limit < 0 then Err(DataError) else Ok(Page(s, skip, limit))
  }

  // ---------------------------------------------------------------------------------------
  // Order-preserving filtering (Array.prototype.filter, a WHERE clause)
  // ---------------------------------------------------------------------------------------

  /** `r` is `s` with some elements dropped and the rest kept in their order. */
  predicate SubsequenceOf<T(==)>(r: seq<T>, s: seq<T>)
    decreases |s|
  {
    if r == [] then true
    else if s == [] then false
    else (r[0] == s[0] && SubsequenceOf(r[1..], s[1..])) || SubsequenceOf(r, s[1..])
  }

  function Filter<T(==,!new)>(s: seq<T>, keep: T -> bool): (r: seq<T>)
    ensures |r| <= |s|
    ensures forall x :: x in r <==> x in s && keep(x)
    ensures SubsequenceOf(r, s)
  {
    if s == [] then []
    else if keep(s[0]) then [s[0]] + Filter(s[1..], keep)
    else Filter(s[1..], keep)
  }

  /** Filtering with a test every element passes changes nothing. */
  lemma {:induction false} FilterAll<T(!new)>(s: seq<T>, keep: T -> bool)
    requires forall x :: x in s ==> keep(x)
    ensures Filter(s, keep) == s
  {
    if s != [] {
      FilterAll(s[1..], keep);
    }
  }

  /** Filtering with a test no element passes gives the empty sequence. */
  lemma FilterNone<T(!new)>(s: seq<T>, keep: T -> bool)
    requires forall x :: x in s ==> !keep(x)
    ensures Filter(s, keep) == []
  {
    if Filter(s, keep) != [] {
      assert Filter(s, keep)[0] in Filter(s, keep);
    }
  }

  /** Filtering distributes over concatenation. */
  lemma {:induction false} FilterConcat<T(!new)>(a: seq<T>, b: seq<T>, keep: T -> bool)
    ensures Filter(a + b, keep) == Filter(a, keep) + Filter(b, keep)
  {
    if a != [] {
      assert (a + b)[1..] == a[1..] + b;
      FilterConcat(a[1..], b, keep);
    } else {
      assert a + b == b;
    }
  }

  /** Filtering an ascending sequence keeps it ascending. */
  lemma {:induction false} FilterIncreasing(s: seq<int>, keep: int -> bool)
    requires StrictlyIncreasing(s)
    ensures StrictlyIncreasing(Filter(s, keep))
  {
    if s != [] {
      FilterIncreasing(s[1..], keep);
      var rest := Filter(s[1..], keep);
      if keep(s[0]) {
        var r := [s[0]] + rest;
        assert Filter(s, keep) == r;
        forall i, j | 0 <= i < j < |r| ensures r[i] < r[j] {
          if i > 0 {
            assert r[i] == rest[i - 1] && r[j] == rest[j - 1];
          } else {
            assert r[j] in rest;
            var k :| 0 <= k < |s[1..]| && s[1..][k] == r[j];
            assert s[k + 1] == r[j];
          }
        }
      }
    }
  }

  /** A window of an ascending sequence is ascending. */
  lemma PageIncreasing(s: seq<int>, offset: nat, limit: nat)
    requires StrictlyIncreasing(s)
    ensures StrictlyIncreasing(Page(s, offset, limit))
  {
    var r := Page(s, offset, limit);
    forall i, j | 0 <= i < j < |r| ensures r[i] < r[j] {
      assert r[i] == s[offset + i] && r[j] == s[offset + j];
    }
  }

  /** Filtering twice with the same test is filtering once. */
  lemma {:induction false} FilterTwice<T(!new)>(s: seq<T>, keep: T -> bool)
    ensures Filter(Filter(s, keep), keep) == Filter(s, keep)
  {
    if s != [] {
      FilterTwice(s[1..], keep);
      if keep(s[0]) {
        assert Filter(s, keep) == [s[0]] + Filter(s[1..], keep);
        assert ([s[0]] + Filter(s[1..], keep))[1..] == Filter(s[1..], keep);
      }
    }
  }

  // ---------------------------------------------------------------------------------------
  // Searching a list (Array.prototype.findIndex and find)
  // ---------------------------------------------------------------------------------------

  /** The position of the first element of `s` that passes `p`, or -1 when none does. */
  function FirstIndex<T>(s: seq<T>, p: T -> bool): (r: int)
    ensures -1 <= r < |s|
    ensures r == -1 <==> forall i :: 0 <= i < |s| ==> !p(s[i])
    ensures r >= 0 ==> p(s[r]) && forall j :: 0 <= j < r ==> !p(s[j])
    decreases |s|
  {
    if s == [] then -1
    else if p(s[0]) then 0
    else
      var k := FirstIndex(s[1..], p);
      assert forall i :: 1 <= i < |s| ==> s[i] == s[1..][i - 1];
      if k == -1 then -1 else k + 1
  }

  /** `s.findIndex(p)`, scanning from the front. */
  method FindIndex<T>(s: seq<T>, p: T -> bool) returns (r: int)
    ensures r == FirstIndex(s, p)
  {
    var i := 0;
    while i < |s|
      invariant 0 <= i <= |s|
      invariant forall j :: 0 <= j < i ==> !p(s[j])
    {
      if p(s[i]) {
        return i;
      }
      i := i + 1;
    }
    return -1;
  }
}
