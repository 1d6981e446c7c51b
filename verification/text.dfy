/** The text and date helpers of the forms: `String.prototype.trim`, day starts, order-keeping subsequences. */
module Text {

  /** White space and line terminators as `trim` removes them (ECMAScript WhiteSpace and LineTerminator). */
  predicate IsSpace(c: char) {
    || c == '\t' || c == '\n' || c == '\U{B}' || c == '\U{C}' || c == '\r' || c == ' '
    || c == '\U{A0}' || c == '\U{1680}' || ('\U{2000}' <= c <= '\U{200A}')
    || c == '\U{2028}' || c == '\U{2029}' || c == '\U{202F}' || c == '\U{205F}' || c == '\U{3000}' || c == '\U{FEFF}'
  }

  /** Drops leading white space: what remains is a suffix that does not start with white space. */
  function TrimStart(s: string): (r: string)
    ensures |r| <= |s| && r == s[|s| - |r|..]
    ensures r == [] || !IsSpace(r[0])
    ensures forall i | 0 <= i < |s| - |r| :: IsSpace(s[i])
  {
    if s != [] && IsSpace(s[0]) then TrimStart(s[1..]) else s
  }

  /** Drops trailing white space: what remains is a prefix that does not end with white space. */
  function TrimEnd(s: string): (r: string)
    ensures |r| <= |s| && r == s[..|r|]
    ensures r == [] || !IsSpace(r[|r| - 1])
    ensures forall i | |r| <= i < |s| :: IsSpace(s[i])
  {
    if s != [] && IsSpace(s[|s| - 1]) then TrimEnd(s[..|s| - 1]) else s
  }

  /**
    `s.trim()`: the slice of `s` between its leading and trailing white
    space; empty exactly when `s` is all white space.
   */
  function Trim(s: string): (r: string)
    ensures exists i, j | 0 <= i <= j <= |s| :: r == s[i..j]
    ensures r == [] || (!IsSpace(r[0]) && !IsSpace(r[|r| - 1]))
    ensures r == [] <==> forall i | 0 <= i < |s| :: IsSpace(s[i])
  {
    var t := TrimStart(s);
    var r := TrimEnd(t);
    assert r == s[|s| - |t|..|s| - |t| + |r|];
    TrimEmptyAllSpace(s);
    r
  }

  /** When trimming leaves nothing, every character was white space. */
  lemma TrimEmptyAllSpace(s: string)
    ensures TrimEnd(TrimStart(s)) == [] ==> forall i | 0 <= i < |s| :: IsSpace(s[i])
  {
    var t := TrimStart(s);
    if TrimEnd(t) == [] {
      // `t` starts with a non-space unless empty, and `TrimEnd` dropped all of it as space.
      assert t == [];
    }
  }

  /** A string with no white space at either end is its own trim, and only such a string is. */
  lemma {:induction false} TrimFixed(s: string)
    ensures Trim(s) == s <==> s == [] || (!IsSpace(s[0]) && !IsSpace(s[|s| - 1]))
  {
    if s != [] && !IsSpace(s[0]) && !IsSpace(s[|s| - 1]) {
      assert TrimStart(s) == s;
      assert TrimEnd(s) == s;
    }
  }

  /** Trimming twice is trimming once. */
  lemma TrimIdempotent(s: string)
    ensures Trim(Trim(s)) == Trim(s)
  {
    TrimFixed(Trim(s));
  }

  /** No element occurs twice. */
  predicate Distinct<T(==)>(s: seq<T>) {
    forall i, j | 0 <= i < j < |s| :: s[i] != s[j]
  }

  /** `a` is `b` with some elements left out and the rest in their order. */
  ghost predicate Subsequence<T>(a: seq<T>, b: seq<T>)
    decreases |b|
  {
    if a == [] then true
    else if b == [] then false
    else (a[0] == b[0] && Subsequence(a[1..], b[1..])) || Subsequence(a, b[1..])
  }

  /** Milliseconds in a day: `24 * 60 * 60 * 1000`. */
  const DayMillis: int := 24 * 60 * 60 * 1000

  /**
    A timestamp shown in a date input and read back: `toISOString()` cut at
    the `T` and parsed again gives midnight UTC of the same day.
   */
  function DayStart(t: int): (d: int)
    ensures d <= t < d + DayMillis
    ensures d % DayMillis == 0
  {
    t - t % DayMillis
  }

  /** Midnight of a day is its own day start, and any time of a day has that day's start. */
  lemma DayStartUnique(t: int, d: int)
    ensures (d <= t < d + DayMillis && d % DayMillis == 0) <==> d == DayStart(t)
  {
    if d <= t < d + DayMillis && d % DayMillis == 0 {
      var q := d / DayMillis;
      assert d == q * DayMillis;
      assert t / DayMillis == q;
    }
  }
}
