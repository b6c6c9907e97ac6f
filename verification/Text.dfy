/** Strings as Python's `str` methods see them, and sorting. */
module Text {

  /** What `str.isspace` and `\s` accept. */
  predicate IsSpace(c: char) {
    || '\t' <= c <= '\r' || '\U{1C}' <= c <= ' ' || c == '\U{85}' || c == '\U{A0}' || c == '\U{1680}'
    || '\U{2000}' <= c <= '\U{200A}' || c == '\U{2028}' || c == '\U{2029}' || c == '\U{202F}' || c == '\U{205F}'
    || c == '\U{3000}'
  }

  /** Where `str.splitlines` breaks. */
  predicate IsBreak(c: char) {
    '\n' <= c <= '\r' || '\U{1C}' <= c <= '\U{1E}' || c == '\U{85}' || c == '\U{2028}' || c == '\U{2029}'
  }

  predicate OneLine(s: string) {
    forall c | c in s :: !IsBreak(c)
  }

  predicate StartsWith(s: string, prefix: string) {
    |prefix| <= |s| && s[..|prefix|] == prefix
  }

  function TrimLeft(s: string): (t: string)
    ensures |t| <= |s| && t == s[|s| - |t|..]
    ensures t != "" ==> !IsSpace(t[0])
    ensures forall i | 0 <= i < |s| - |t| :: IsSpace(s[i])
  {
    if s != "" && IsSpace(s[0]) then TrimLeft(s[1..]) else s
  }

  function TrimRight(s: string): (t: string)
    ensures |t| <= |s| && t == s[..|t|]
    ensures t != "" ==> !IsSpace(t[|t| - 1])
    ensures forall i | |t| <= i < |s| :: IsSpace(s[i])
  {
    if s != "" && IsSpace(s[|s| - 1]) then TrimRight(s[..|s| - 1]) else s
  }

  function Trim(s: string): string {
    TrimRight(TrimLeft(s))
  }

  predicate Trimmed(s: string) {
    s != "" ==> !IsSpace(s[0]) && !IsSpace(s[|s| - 1])
  }

  predicate Blank(s: string) {
    forall c | c in s :: IsSpace(c)
  }

  lemma BlankIsTrimmedAway(s: string)
    ensures Blank(s) <==> Trim(s) == ""
  {
    var t := TrimLeft(s);
    if t == "" {
      assert forall i | 0 <= i < |s| :: IsSpace(s[i]);
    } else {
      assert t[0] == s[|s| - |t|];
    }
  }

  lemma TrimIsTrimmed(s: string)
    ensures Trimmed(Trim(s)) && (forall c | c in Trim(s) :: c in s)
  {
  }

  /** Trimming gives a trimmed string back, whatever blanks stand around it. */
  lemma TrimPadded(left: string, s: string, right: string)
    requires Trimmed(s) && (forall c | c in left :: IsSpace(c)) && (forall c | c in right :: IsSpace(c))
    ensures Trim(left + s + right) == s
  {
    var t := s + right;
    assert left + s + right == left + t;
    TrimLeftPadded(left, t);
    if s == "" {
      assert t == right && right == right + "";
      TrimLeftPadded(right, "");
    } else {
      assert t[0] == s[0];
      assert TrimLeft(t) == t;
      TrimRightPadded(s, right);
    }
  }

  lemma {:induction false} TrimLeftPadded(left: string, s: string)
    requires forall c | c in left :: IsSpace(c)
    ensures TrimLeft(left + s) == TrimLeft(s)
  {
    if left == "" {
      assert left + s == s;
    } else {
      assert (left + s)[1..] == left[1..] + s;
      TrimLeftPadded(left[1..], s);
    }
  }

  lemma {:induction false} TrimRightPadded(s: string, right: string)
    requires forall c | c in right :: IsSpace(c)
    ensures TrimRight(s + right) == TrimRight(s)
  {
    if right == "" {
      assert s + right == s;
    } else {
      assert (s + right)[..|s + right| - 1] == s + right[..|right| - 1];
      TrimRightPadded(s, right[..|right| - 1]);
    }
  }

  /** The position of the first `c`, or the length. */
  function Find(s: string, c: char): (i: nat)
    ensures i <= |s| && c !in s[..i] && (i < |s| ==> s[i] == c)
  {
    if s == "" || s[0] == c then 0 else 1 + Find(s[1..], c)
  }

  lemma {:induction false} FindAfter(s: string, c: char, rest: string)
    requires c !in s
    ensures Find(s + [c] + rest, c) == |s|
  {
    var t := s + [c] + rest;
    if s != "" {
      assert t[1..] == s[1..] + [c] + rest;
      FindAfter(s[1..], c, rest);
    }
  }

  // -------- Lines --------

  function FindBreak(s: string): (i: nat)
    ensures i <= |s| && OneLine(s[..i]) && (i < |s| ==> IsBreak(s[i]))
  {
    if s == "" || IsBreak(s[0]) then 0
    else
      var i := 1 + FindBreak(s[1..]);
      assert s[..i] == [s[0]] + s[1..][..i - 1];
      i
  }

  function SplitLines(s: string): (lines: seq<string>)
    ensures forall l | l in lines :: OneLine(l)
    decreases |s|
  {
    if s == "" then []
    else if FindBreak(s) == |s| then
      assert s[..|s|] == s;
      [s]
    else [s[..FindBreak(s)]] + SplitLines(s[FindBreak(s) + 1..])
  }

  function Join(lines: seq<string>): string {
    if lines == [] then "" else lines[0] + "\n" + Join(lines[1..])
  }

  lemma {:induction false} FindBreakAfter(line: string, rest: string)
    requires OneLine(line)
    ensures FindBreak(line + "\n" + rest) == |line|
  {
    var t := line + "\n" + rest;
    if line != "" {
      assert t[1..] == line[1..] + "\n" + rest;
      FindBreakAfter(line[1..], rest);
    }
  }

  lemma {:induction false} SplitJoin(lines: seq<string>)
    requires forall l | l in lines :: OneLine(l)
    ensures SplitLines(Join(lines)) == lines
  {
    if lines != [] {
      var l, s := lines[0], Join(lines);
      assert s == l + "\n" + Join(lines[1..]);
      FindBreakAfter(l, Join(lines[1..]));
      assert s[..|l|] == l && s[|l| + 1..] == Join(lines[1..]);
      SplitJoin(lines[1..]);
    }
  }

  // -------- Numbers --------

  predicate IsDigit(c: char) {
    '0' <= c <= '9'
  }

  function DigitCount(s: string): (n: nat)
    ensures n <= |s| && (forall i | 0 <= i < n :: IsDigit(s[i])) && (n < |s| ==> !IsDigit(s[n]))
  {
    if s == "" || !IsDigit(s[0]) then 0 else 1 + DigitCount(s[1..])
  }

  function DigitValue(c: char): nat
    requires IsDigit(c)
  {
    c as int - '0' as int
  }

  function ToNat(s: string): nat
    requires forall c | c in s :: IsDigit(c)
  {
    if s == "" then 0 else 10 * ToNat(s[..|s| - 1]) + DigitValue(s[|s| - 1])
  }

  function ToString(n: nat): (s: string)
    ensures s != "" && forall c | c in s :: IsDigit(c)
  {
    (if n < 10 then "" else ToString(n / 10)) + [('0' as int + n % 10) as char]
  }

  lemma {:induction false} ToNatToString(n: nat)
    ensures ToNat(ToString(n)) == n
  {
    var s := ToString(n);
    assert s[..|s| - 1] == if n < 10 then "" else ToString(n / 10);
    if n >= 10 {
      ToNatToString(n / 10);
    }
  }

  // -------- Sorting --------

  ghost predicate TotalOrder<T(!new)>(leq: (T, T) -> bool) {
    && (forall x, y :: leq(x, y) || leq(y, x))
    && (forall x, y :: leq(x, y) && leq(y, x) ==> x == y)
    && (forall x, y, z :: leq(x, y) && leq(y, z) ==> leq(x, z))
  }

  predicate Least<T(==)>(m: T, s: set<T>, leq: (T, T) -> bool) {
    m in s && forall x | x in s :: leq(m, x)
  }

  lemma LeastOfMore<T(!new)>(k: T, m: T, s: set<T>, leq: (T, T) -> bool)
    requires TotalOrder(leq) && m in s && Least(k, s - {m}, leq)
    ensures Least(if leq(k, m) then k else m, s, leq)
  {
    forall x | x in s
      ensures leq(if leq(k, m) then k else m, x)
    {
      assert x == m || x in s - {m};
    }
  }

  lemma {:induction false} HasLeast<T(!new)>(s: set<T>, leq: (T, T) -> bool)
    requires s != {} && TotalOrder(leq)
    ensures exists m :: Least(m, s, leq)
    decreases |s|
  {
    var m :| m in s;
    if s == {m} {
      assert Least(m, s, leq);
    } else {
      HasLeast(s - {m}, leq);
      var k :| Least(k, s - {m}, leq);
      LeastOfMore(k, m, s, leq);
    }
  }

  /** The elements of a set in ascending order. */
  function Sorted<T(!new, ==)>(s: set<T>, leq: (T, T) -> bool): (r: seq<T>)
    requires TotalOrder(leq)
    ensures (forall x :: x in r <==> x in s) && (forall i, j | 0 <= i < j < |r| :: r[i] != r[j] && leq(r[i], r[j]))
    decreases |s|
  {
    if s == {} then []
    else
      HasLeast(s, leq);
      var m :| m in s && Least(m, s, leq);
      [m] + Sorted(s - {m}, leq)
  }
}
