/** Shared vocabulary: an Option type for calls that may throw, and the few
    JavaScript string operations the wallet relies on (`trim`,
    `toLowerCase`, `slice`) and `Math.ceil` on an integer quotient. */
module Common {

  /** `None` stands for a JavaScript call that threw, or for `null`. */
  datatype Option<+T> = None | Some(value: T)

  function Min(a: int, b: int): int { if a <= b then a else b }

  // ---------------------------------------------------------------------
  // String.prototype.trim

  /** The white-space and line-terminator characters that `trim` strips
      (ECMAScript WhiteSpace and LineTerminator). */
  predicate IsWhitespace(c: char)
  {
    || c == ' ' || c == '\t' || c == '\n' || c == '\r'
    || c == '\U{000B}' || c == '\U{000C}' || c == '\U{00A0}' || c == '\U{FEFF}'
    || c == '\U{1680}' || ('\U{2000}' <= c <= '\U{200A}')
    || c == '\U{2028}' || c == '\U{2029}' || c == '\U{202F}' || c == '\U{205F}'
    || c == '\U{3000}'
  }

  predicate AllWhitespace(s: string)
  {
    forall i :: 0 <= i < |s| ==> IsWhitespace(s[i])
  }

  /** Drops the leading white space: the result is the suffix of `s` that
      starts at its first non-white-space character. */
  function TrimStart(s: string): (r: string)
    ensures |r| <= |s| && r == s[|s| - |r|..]
    ensures AllWhitespace(s[..|s| - |r|])
    ensures r == [] || !IsWhitespace(r[0])
  {
    if s == [] || !IsWhitespace(s[0]) then s
    else
      var r := TrimStart(s[1..]);
      assert s[1..][..|s[1..]| - |r|] == s[1..|s| - |r|];
      r
  }

  /** Drops the trailing white space: the result is the prefix of `s` that
      ends at its last non-white-space character. */
  function TrimEnd(s: string): (r: string)
    ensures |r| <= |s| && r == s[..|r|]
    ensures AllWhitespace(s[|r|..])
    ensures r == [] || !IsWhitespace(r[|r| - 1])
  {
    if s == [] || !IsWhitespace(s[|s| - 1]) then s
    else
      var r := TrimEnd(s[..|s| - 1]);
      assert s[..|s| - 1][|r|..] == s[|r|..|s| - 1];
      r
  }

  /** `s.trim()`. What it keeps is stated by `TrimIsSlice`,
      `TrimDropsOnlyWhitespace` and `TrimEndsAreNotWhitespace`, kept apart
      from the function so that its callers do not carry them. */
  function Trim(s: string): string
  {
    TrimEnd(TrimStart(s))
  }

  /** `s.trim()` is the slice of `s` that starts where the leading white
      space ends. */
  lemma TrimIsSlice(s: string)
    ensures |s| - |TrimStart(s)| + |Trim(s)| <= |s|
    ensures Trim(s) == s[|s| - |TrimStart(s)|..|s| - |TrimStart(s)| + |Trim(s)|]
  {
    var t := TrimStart(s);
    assert t == s[|s| - |t|..];
  }

  /** A white-space tail of the suffix `s[i..]` is a white-space tail of `s`. */
  lemma WhitespaceTailOfSuffix(s: string, i: int, k: int)
    requires 0 <= i <= |s| && 0 <= k <= |s| - i
    requires AllWhitespace(s[i..][k..])
    ensures AllWhitespace(s[i + k..])
  {
    assert s[i + k..] == s[i..][k..];
  }

  /** Everything `trim` drops, before and after the slice it keeps, is
      white space. */
  lemma TrimDropsOnlyWhitespace(s: string)
    ensures |s| - |TrimStart(s)| + |Trim(s)| <= |s|
    ensures AllWhitespace(s[..|s| - |TrimStart(s)|])
    ensures AllWhitespace(s[|s| - |TrimStart(s)| + |Trim(s)|..])
  {
    var t := TrimStart(s);
    var r := TrimEnd(t);
    assert Trim(s) == r;
    assert s[|s| - |t|..] == t;
    WhitespaceTailOfSuffix(s, |s| - |t|, |r|);
  }

  /** What `trim` keeps neither starts nor ends with white space. */
  lemma TrimEndsAreNotWhitespace(s: string)
    ensures Trim(s) == [] || (!IsWhitespace(Trim(s)[0]) && !IsWhitespace(Trim(s)[|Trim(s)| - 1]))
  {
    var t := TrimStart(s);
    if Trim(s) != [] {
      assert Trim(s)[0] == t[0];
    }
  }

  /** `!s.trim()` holds exactly when every character of `s` is white space:
      this is the "blank input" test the forms use. */
  lemma TrimEmptyIffBlank(s: string)
    ensures Trim(s) == "" <==> AllWhitespace(s)
  {
    var t := TrimStart(s);
    if Trim(s) == "" {
      // the trailing trim of `t` removed everything, yet `t` cannot start
      // with white space: so nothing was left after the leading trim
      assert AllWhitespace(t[0..]);
      assert t == [];
      assert s == s[..|s| - |t|];
    } else {
      var r := Trim(s);
      assert r[0] == t[0];
      assert !IsWhitespace(t[0]);
      assert t[0] == s[|s| - |t|];
    }
  }

  /** Trimming keeps a non-white-space first character: an input that does
      not start or end with white space is its own trim. */
  lemma TrimOfTrimmed(s: string)
    requires s == [] || (!IsWhitespace(s[0]) && !IsWhitespace(s[|s| - 1]))
    ensures Trim(s) == s
  {
  }

  /** Trimming twice is trimming once: a value stored trimmed, such as an
      imported phrase, is unchanged by a later `trim`. */
  lemma TrimIdempotent(s: string)
    ensures Trim(Trim(s)) == Trim(s)
  {
    TrimEndsAreNotWhitespace(s);
    TrimOfTrimmed(Trim(s));
  }

  // ---------------------------------------------------------------------
  // String.prototype.toLowerCase (ASCII letters only)

  function LowerChar(c: char): char
  {
    if 'A' <= c <= 'Z' then (c as int - 'A' as int + 'a' as int) as char else c
  }

  /** `s.toLowerCase()` on the ASCII alphabet: same length, every upper-case
      ASCII letter mapped to its lower-case letter, every other character
      kept. */
  function ToLower(s: string): (r: string)
    ensures |r| == |s|
    ensures forall i :: 0 <= i < |s| ==> r[i] == LowerChar(s[i])
    ensures forall i :: 0 <= i < |s| ==> !('A' <= r[i] <= 'Z')
  {
    seq(|s|, i requires 0 <= i < |s| => LowerChar(s[i]))
  }

  /** `a.toLowerCase() === b.toLowerCase()`. */
  predicate SameIgnoringCase(a: string, b: string)
  {
    ToLower(a) == ToLower(b)
  }

  /** Lower-casing is idempotent, so a lower-cased string compares equal,
      ignoring case, to the string it came from. */
  lemma ToLowerIdempotent(s: string)
    ensures ToLower(ToLower(s)) == ToLower(s)
    ensures SameIgnoringCase(ToLower(s), s)
  {
    assert forall i :: 0 <= i < |s| ==> LowerChar(LowerChar(s[i])) == LowerChar(s[i]);
  }

  // ---------------------------------------------------------------------
  // Math.ceil(n / m) for integers

  /** The least integer `q` with `n <= m * q`, i.e. `Math.ceil(n / m)`. */
  function CeilDiv(n: int, m: int): (q: int)
    requires m > 0
    ensures m * (q - 1) < n <= m * q
  {
    var d := n / m;
    assert n == m * d + n % m;
    if n % m == 0 then d else d + 1
  }

  lemma CeilDivPositive(n: int, m: int)
    requires m > 0 && n > 0
    ensures CeilDiv(n, m) >= 1
  {
  }

  // ---------------------------------------------------------------------
  // formatAddress

  /** `` `${a.slice(0, 6)}...${a.slice(-4)}` ``: the first six characters,
      an ellipsis, then the last four; `slice` clamps to the string, so a
      shorter string is shown whole on each side. */
  function FormatAddress(a: string): (r: string)
    ensures |r| == Min(6, |a|) + 3 + Min(4, |a|)
    ensures r[..Min(6, |a|)] == a[..Min(6, |a|)]
    ensures r[Min(6, |a|)..Min(6, |a|) + 3] == "..."
    ensures r[|r| - Min(4, |a|)..] == a[|a| - Min(4, |a|)..]
  {
    var head := if |a| < 6 then a else a[..6];
    var tail := if |a| < 4 then a else a[|a| - 4..];
    head + "..." + tail
  }

  /** A 42-character hex address is shown as 13 characters: `0x` and four
      hex digits, `...`, and the last four hex digits. */
  lemma FormatFullAddress(a: string)
    requires |a| == 42
    ensures |FormatAddress(a)| == 13
    ensures FormatAddress(a) == a[..6] + "..." + a[38..]
  {
    var r := FormatAddress(a);
    assert r == r[..6] + r[6..9] + r[9..];
  }
}
