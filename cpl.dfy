/**
 * Models of the CPL helpers that both core files lean on: ASCII case-insensitive
 * comparison (EQUAL, STARTS_WITH_CI), strchr, strstr, atoi, CPLTestBool and the
 * "name=value" option lists (CSLFetchNameValue, CSLSetNameValue).
 *
 * The CPL library itself is not part of this model; each definition below states
 * the simple semantics the core is assumed to rely on.
 */
module Cpl {

  datatype Option<T> = None | Some(value: T)

  datatype Result<T, E> = Ok(value: T) | Err(error: E)

  // ---------------------------------------------------------------------------
  // Characters and case-insensitive comparison
  // ---------------------------------------------------------------------------

  /** toupper in the C locale: only the ASCII letters change. */
  function ToUpper(c: char): char {
    if 'a' <= c <= 'z' then (c as int - 32) as char else c
  }

  /** EQUAL(a, b): strcasecmp(a, b) == 0 over ASCII letters. */
  predicate EqualCI(a: string, b: string) {
    |a| == |b| && forall i :: 0 <= i < |a| ==> ToUpper(a[i]) == ToUpper(b[i])
  }

  /** STARTS_WITH(s, prefix): case-sensitive prefix test. */
  predicate StartsWith(s: string, prefix: string) {
    |prefix| <= |s| && s[..|prefix|] == prefix
  }

  /** STARTS_WITH_CI(s, prefix): case-insensitive prefix test. */
  predicate StartsWithCI(s: string, prefix: string) {
    |prefix| <= |s| && EqualCI(s[..|prefix|], prefix)
  }

  lemma EqualCISymmetric(a: string, b: string)
    requires EqualCI(a, b)
    ensures EqualCI(b, a)
  {
  }

  lemma EqualCITransitive(a: string, b: string, c: string)
    requires EqualCI(a, b) && EqualCI(b, c)
    ensures EqualCI(a, c)
  {
  }

  /** strchr(s, c): the first position of c in s, if any. */
  function FindChar(s: string, c: char): (r: Option<nat>)
    ensures r.Some? ==> r.value < |s| && s[r.value] == c
    ensures r.Some? ==> forall j :: 0 <= j < r.value ==> s[j] != c
    ensures r.None? <==> c !in s
  {
    if s == [] then None
    else if s[0] == c then Some(0)
    else match FindChar(s[1..], c)
      case None => None
      case Some(k) => Some(k + 1)
  }

  /** The first c of d + [c] + tail is the one after d when d holds none. */
  lemma FindCharAfter(d: string, c: char, tail: string)
    requires c !in d
    ensures FindChar(d + [c] + tail, c) == Some(|d|)
  {
    var s := d + [c] + tail;
    assert s[|d|] == c;
    assert forall j :: 0 <= j < |d| ==> s[j] == d[j];
  }

  /** Text after the first c does not move it. */
  lemma FindCharPrefix(a: string, t: string, c: char)
    requires c in a
    ensures FindChar(a + t, c) == FindChar(a, c)
  {
    var i := FindChar(a, c).value;
    assert (a + t)[i] == c;
    assert forall j :: 0 <= j < |a| ==> (a + t)[j] == a[j];
  }

  // ---------------------------------------------------------------------------
  // CSLTokenizeStringComplex(s, delim, FALSE, FALSE), with the semantics assumed
  // here: split at every delimiter, no quoting, empty tokens dropped.
  // ---------------------------------------------------------------------------

  function Tokenize(s: string, delim: char): (tokens: seq<string>)
    ensures forall i :: 0 <= i < |tokens| ==> tokens[i] != [] && delim !in tokens[i]
    decreases |s|
  {
    match FindChar(s, delim)
    case None => if s == [] then [] else [s]
    case Some(i) => (if i == 0 then [] else [s[..i]]) + Tokenize(s[i + 1..], delim)
  }

  /** A non-empty text without the delimiter is one token. */
  lemma TokenizeSingle(t: string, delim: char)
    requires t != [] && delim !in t
    ensures Tokenize(t, delim) == [t]
  {
  }

  /** Tokenizing distributes over a delimiter: the tokens of a, then those of b. */
  lemma {:induction false} TokenizeJoin(a: string, b: string, delim: char)
    ensures Tokenize(a + [delim] + b, delim) == Tokenize(a, delim) + Tokenize(b, delim)
    decreases |a|
  {
    var s := a + [delim] + b;
    if delim !in a {
      FindCharAfter(a, delim, b);
      assert s[|a| + 1..] == b;
      if a != [] {
        assert s[..|a|] == a;
      }
    } else {
      FindCharPrefix(a, [delim] + b, delim);
      assert s == a + ([delim] + b);
      var i := FindChar(a, delim).value;
      assert s[i + 1..] == a[i + 1..] + [delim] + b;
      assert s[..i] == a[..i];
      TokenizeJoin(a[i + 1..], b, delim);
    }
  }

  /** There is no token exactly when the text is delimiters only. */
  lemma {:induction false} TokenizeEmpty(s: string, delim: char)
    ensures Tokenize(s, delim) == [] <==> forall i :: 0 <= i < |s| ==> s[i] == delim
    decreases |s|
  {
    match FindChar(s, delim)
    case None =>
      if s != [] {
        assert s[0] != delim;
      }
    case Some(i) =>
      TokenizeEmpty(s[i + 1..], delim);
      if i == 0 {
        forall j | 0 <= j < |s| && (forall k :: 0 <= k < |s[1..]| ==> s[1..][k] == delim)
          ensures s[j] == delim
        {
          if j > 0 { assert s[j] == s[1..][j - 1]; }
        }
        if forall k :: 0 <= k < |s| ==> s[k] == delim {
          forall k | 0 <= k < |s[1..]| ensures s[1..][k] == delim {
            assert s[1..][k] == s[k + 1];
          }
        }
      } else {
        assert s[0] != delim;
      }
  }

  /** strstr(s, sub) != nullptr. */
  predicate Contains(s: string, sub: string) {
    exists i :: 0 <= i <= |s| - |sub| && OccursAt(s, sub, i)
  }

  predicate OccursAt(s: string, sub: string, i: int) {
    0 <= i <= |s| - |sub| && s[i..i + |sub|] == sub
  }

  // ---------------------------------------------------------------------------
  // atoi, with the assumed semantics: leading white space, an optional sign,
  // then the longest run of decimal digits (no digits gives 0). Overflow, which
  // is undefined behaviour in C, is not modelled.
  // ---------------------------------------------------------------------------

  predicate IsDigit(c: char) {
    '0' <= c <= '9'
  }

  /** isspace in the C locale. */
  predicate IsSpace(c: char) {
    c == ' ' || c == '\t' || c == '\n' || c == '\r' || c as int == 11 || c as int == 12
  }

  predicate AllDigits(d: string) {
    forall i :: 0 <= i < |d| ==> IsDigit(d[i])
  }

  function SkipSpaces(s: string): (t: string)
    ensures |t| <= |s| && t == s[|s| - |t|..]
    ensures t == [] || !IsSpace(t[0])
    ensures forall i :: 0 <= i < |s| - |t| ==> IsSpace(s[i])
  {
    if s != [] && IsSpace(s[0]) then SkipSpaces(s[1..]) else s
  }

  /** The longest prefix of s made of decimal digits. */
  function LeadingDigits(s: string): (d: string)
    ensures d <= s && AllDigits(d)
    ensures |d| < |s| ==> !IsDigit(s[|d|])
  {
    if s != [] && IsDigit(s[0]) then [s[0]] + LeadingDigits(s[1..]) else []
  }

  /** The value of a string of decimal digits, most significant first. */
  function DigitsValue(d: string): nat
    requires AllDigits(d)
  {
    if d == [] then 0
    else DigitsValue(d[..|d| - 1]) * 10 + (d[|d| - 1] as int - '0' as int)
  }

  function Atoi(s: string): int {
    var t := SkipSpaces(s);
    if t != [] && t[0] == '-' then 0 - DigitsValue(LeadingDigits(t[1..])) as int
    else if t != [] && t[0] == '+' then DigitsValue(LeadingDigits(t[1..]))
    else DigitsValue(LeadingDigits(t))
  }

  /** A digit string denotes a positive number exactly when one of its digits is not '0'. */
  lemma {:induction false} DigitsValuePositive(d: string)
    requires AllDigits(d)
    ensures DigitsValue(d) > 0 <==> exists i :: 0 <= i < |d| && d[i] != '0'
  {
    if d != [] {
      var init := d[..|d| - 1];
      DigitsValuePositive(init);
      if exists i :: 0 <= i < |init| && init[i] != '0' {
        var i :| 0 <= i < |init| && init[i] != '0';
        assert d[i] != '0';
      }
      if exists i :: 0 <= i < |d| && d[i] != '0' {
        var i :| 0 <= i < |d| && d[i] != '0';
        if i < |d| - 1 {
          assert init[i] != '0';
        }
      }
    }
  }

  /** atoi of a string that starts with a digit is the value of its leading digit run. */
  lemma AtoiOfDigitStart(s: string)
    requires s != [] && IsDigit(s[0])
    ensures Atoi(s) == DigitsValue(LeadingDigits(s))
  {
    assert !IsSpace(s[0]);
    assert SkipSpaces(s) == s;
  }

  /** atoi of a string that starts with neither white space, a sign nor a digit is 0. */
  lemma AtoiOfNonNumeric(s: string)
    requires s == [] || (!IsSpace(s[0]) && !IsDigit(s[0]) && s[0] != '-' && s[0] != '+')
    ensures Atoi(s) == 0
  {
  }

  // ---------------------------------------------------------------------------
  // CPLTestBool, with its documented semantics: false exactly for "NO",
  // "FALSE", "OFF" and "0" in any case.
  // ---------------------------------------------------------------------------

  predicate TestBool(s: string) {
    !(EqualCI(s, "NO") || EqualCI(s, "FALSE") || EqualCI(s, "OFF") || EqualCI(s, "0"))
  }

  // ---------------------------------------------------------------------------
  // Option lists. A CSL "KEY=VALUE" list is a sequence of (key, value) pairs;
  // keys are compared case-insensitively and the first matching entry wins.
  // ---------------------------------------------------------------------------

  type Options = seq<(string, string)>

  predicate HasKey(opts: Options, key: string) {
    exists i :: 0 <= i < |opts| && EqualCI(opts[i].0, key)
  }

  /** CSLFetchNameValue: the value of the first entry whose key matches. */
  function FetchNameValue(opts: Options, key: string): (r: Option<string>)
    ensures r.None? <==> !HasKey(opts, key)
  {
    if opts == [] then None
    else if EqualCI(opts[0].0, key) then Some(opts[0].1)
    else
      var r := FetchNameValue(opts[1..], key);
      assert HasKey(opts, key) ==> HasKey(opts[1..], key) by {
        if HasKey(opts, key) {
          var i :| 0 <= i < |opts| && EqualCI(opts[i].0, key);
          assert i > 0 && EqualCI(opts[1..][i - 1].0, key);
        }
      }
      r
  }

  /** A value found is that of an entry whose key matches, and no earlier entry matches. */
  lemma {:induction false} FetchNameValueFirst(opts: Options, key: string)
    ensures var r := FetchNameValue(opts, key);
      r.Some? ==> exists i :: 0 <= i < |opts| && EqualCI(opts[i].0, key) && opts[i].1 == r.value &&
                              forall j :: 0 <= j < i ==> !EqualCI(opts[j].0, key)
  {
    var r := FetchNameValue(opts, key);
    if opts != [] && !EqualCI(opts[0].0, key) && r.Some? {
      FetchNameValueFirst(opts[1..], key);
      var i :| 0 <= i < |opts[1..]| && EqualCI(opts[1..][i].0, key) && opts[1..][i].1 == r.value &&
               forall j :: 0 <= j < i ==> !EqualCI(opts[1..][j].0, key);
      assert forall j :: 0 <= j < i + 1 ==> !EqualCI(opts[j].0, key) by {
        forall j | 0 <= j < i + 1 ensures !EqualCI(opts[j].0, key) {
          if j > 0 { assert opts[j] == opts[1..][j - 1]; }
        }
      }
      assert opts[i + 1] == opts[1..][i];
    } else if opts != [] && EqualCI(opts[0].0, key) {
      assert EqualCI(opts[0].0, key) && opts[0].1 == r.value;
    }
  }

  /** Looking a key up in a + b: the first list wins, the second is consulted only without a match. */
  lemma {:induction false} FetchNameValueConcat(a: Options, b: Options, key: string)
    ensures FetchNameValue(a + b, key) == if FetchNameValue(a, key).Some? then FetchNameValue(a, key) else FetchNameValue(b, key)
  {
    if a == [] {
      assert a + b == b;
    } else {
      assert (a + b)[0] == a[0];
      assert (a + b)[1..] == a[1..] + b;
      FetchNameValueConcat(a[1..], b, key);
    }
  }

  /** CSLFetchNameValueDef: the value of the key, or the default when it is absent. */
  function FetchNameValueDef(opts: Options, key: string, default: string): string {
    match FetchNameValue(opts, key)
    case Some(v) => v
    case None => default
  }

  /** CSLSetNameValue: replace the first matching entry, or append a new one. */
  function SetNameValue(opts: Options, key: string, value: string): (r: Options)
    ensures FetchNameValue(r, key) == Some(value)
    ensures FetchNameValue(opts, key).Some? ==> |r| == |opts|
    ensures FetchNameValue(opts, key).None? ==> r == opts + [(key, value)]
  {
    if opts == [] then [(key, value)]
    else if EqualCI(opts[0].0, key) then [(key, value)] + opts[1..]
    else
      var rest := SetNameValue(opts[1..], key, value);
      assert ([opts[0]] + rest)[1..] == rest;
      [opts[0]] + rest
  }

  /** Setting one key leaves the value of every other key as it was. */
  lemma {:induction false} SetNameValueKeepsOthers(opts: Options, key: string, value: string, other: string)
    requires !EqualCI(other, key)
    ensures FetchNameValue(SetNameValue(opts, key, value), other) == FetchNameValue(opts, other)
  {
    if opts == [] {
      assert !EqualCI(key, other) by {
        if EqualCI(key, other) { EqualCISymmetric(key, other); }
      }
    } else if EqualCI(opts[0].0, key) {
      var r := SetNameValue(opts, key, value);
      assert r == [(key, value)] + opts[1..];
      assert !EqualCI(key, other) by {
        if EqualCI(key, other) { EqualCISymmetric(key, other); }
      }
      assert !EqualCI(opts[0].0, other) by {
        if EqualCI(opts[0].0, other) {
          EqualCISymmetric(opts[0].0, other);
          EqualCITransitive(other, opts[0].0, key);
        }
      }
      assert r[1..] == opts[1..];
    } else {
      SetNameValueKeepsOthers(opts[1..], key, value, other);
      var r := SetNameValue(opts, key, value);
      assert r[0] == opts[0] && r[1..] == SetNameValue(opts[1..], key, value);
    }
  }

  /** SetNameValueKeepsOthers for every other key at once. */
  lemma SetNameValueKeepsAll(opts: Options, key: string, value: string)
    ensures forall other :: !EqualCI(other, key) ==>
              FetchNameValue(SetNameValue(opts, key, value), other) == FetchNameValue(opts, other)
  {
    forall other | !EqualCI(other, key)
      ensures FetchNameValue(SetNameValue(opts, key, value), other) == FetchNameValue(opts, other)
    {
      SetNameValueKeepsOthers(opts, key, value, other);
    }
  }
}
