/** The subprocess entries of the runtime configuration: their parser, their printer, and
    the two operations that add and remove an isolated plugin. */
module SubprocessConfig {
  import opened Faults
  import opened Text

  type Slot = map<string, string>

  /** What the parser's two patterns say of a line. */
  datatype Line = SlotLine(index: nat, key: string, value: string) | CountLine | OtherLine

  const PREFIX := "subprocess."
  const COUNT := "count"

  function Classify(line: string): Line {
    var t := TrimLeft(line);
    if StartsWith(t, PREFIX) then Entry(t[|PREFIX|..]) else OtherLine
  }

  /** What follows the prefix: a number, a key and a value, or the count. */
  function Entry(u: string): Line {
    var d := DigitCount(u);
    if 0 < d < |u| && u[d] == '.' then Assignment(ToNat(u[..d]), u[d + 1..])
    else if StartsWith(u, COUNT) && StartsWith(TrimLeft(u[|COUNT|..]), "=") then CountLine
    else OtherLine
  }

  function Assignment(index: nat, v: string): Line {
    var e := Find(v, '=');
    if 0 < e < |v| then SlotLine(index, Trim(v[..e]), Trim(v[e + 1..])) else OtherLine
  }

  datatype Parsed = Parsed(preserved: seq<string>, slots: map<nat, Slot>)

  function Take(p: Parsed, c: Line, line: string): Parsed {
    match c
    case SlotLine(i, key, value) =>
      var slot := if i in p.slots then p.slots[i] else map[];
      p.(slots := p.slots[i := slot[key := value]])
    case CountLine => p
    case OtherLine => p.(preserved := p.preserved + [line])
  }

  /** The parser's loop, over any way to tell the lines apart. */
  function FeedAll(f: string -> Line, p: Parsed, lines: seq<string>): Parsed {
    if lines == [] then p
    else
      var last := lines[|lines| - 1];
      Take(FeedAll(f, p, lines[..|lines| - 1]), f(last), last)
  }

  predicate NatLeq(i: nat, j: nat) {
    i <= j
  }

  function InOrder(slots: map<nat, Slot>): seq<Slot> {
    var indices := Sorted(slots.Keys, NatLeq);
    seq(|indices|, i requires 0 <= i < |indices| => slots[indices[i]])
  }

  /** The configuration in a file, if there is one. */
  function Content(text: Option<string>): (seq<string>, seq<Slot>) {
    if text.None? then ([], [])
    else
      var p := FeedAll(Classify, Parsed([], map[]), SplitLines(text.value));
      (p.preserved, InOrder(p.slots))
  }

  // -------- Printing --------

  predicate StringLeq(a: string, b: string) {
    a == "" || (b != "" && (a[0] < b[0] || (a[0] == b[0] && StringLeq(a[1..], b[1..]))))
  }

  const PREFERRED := ["enabled", "name", "location", "required", "path", "workingDirectory",
                      "argument.count", "pdrManaged", "pdrInstanceManifest"]

  /** The keys of a list that are in a slot, in the order of the list. */
  function Chosen(keys: seq<string>, slot: Slot): (r: seq<string>)
    ensures forall k :: k in r <==> k in keys && k in slot
  {
    if keys == [] then []
    else
      var rest := Chosen(keys[..|keys| - 1], slot);
      if keys[|keys| - 1] in slot then rest + [keys[|keys| - 1]] else rest
  }

  function Elements(s: seq<string>): (r: set<string>)
    ensures forall k :: k in r <==> k in s
  {
    set k | k in s
  }

  function KeysOf(slot: Slot): (keys: seq<string>)
    ensures forall k :: k in keys <==> k in slot
  {
    StringOrder();
    var first := Chosen(PREFERRED, slot);
    first + Sorted(slot.Keys - Elements(first), StringLeq)
  }

  function SlotText(i: nat, key: string, value: string): string {
    PREFIX + (ToString(i) + ("." + (key + " = " + value)))
  }

  function SlotLines(i: nat, slot: Slot, keys: seq<string>): seq<string>
    requires forall k | k in keys :: k in slot
  {
    if keys == [] then []
    else
      var k := keys[|keys| - 1];
      assert k in keys;
      SlotLines(i, slot, keys[..|keys| - 1]) + [SlotText(i, k, slot[k])]
  }

  /** A way to list the keys of a slot. */
  ghost predicate Lists(order: Slot -> seq<string>) {
    forall slot, k :: k in order(slot) <==> k in slot
  }

  function Body(order: Slot -> seq<string>, slots: seq<Slot>): seq<string>
    requires Lists(order)
  {
    if slots == [] then []
    else
      var n := |slots| - 1;
      Body(order, slots[..n]) + ([""] + SlotLines(n, slots[n], order(slots[n])))
  }

  function DropBlanks(lines: seq<string>): (r: seq<string>)
    ensures r <= lines
    ensures r != [] ==> !Blank(r[|r| - 1])
    ensures forall i | |r| <= i < |lines| :: Blank(lines[i])
  {
    if lines != [] && Blank(lines[|lines| - 1]) then DropBlanks(lines[..|lines| - 1]) else lines
  }

  function Separated(lines: seq<string>): seq<string> {
    if lines == [] then [] else lines + [""]
  }

  function CountText(n: nat): string {
    PREFIX + (COUNT + (" = " + ToString(n)))
  }

  function Document(preserved: seq<string>, slots: seq<Slot>): seq<string> {
    assert Lists(KeysOf);
    Separated(DropBlanks(preserved)) + [CountText(|slots|)] + Body(KeysOf, slots)
  }

  function Print(preserved: seq<string>, slots: seq<Slot>): string {
    Join(Document(preserved, slots))
  }

  // -------- The order of keys --------

  lemma {:induction false} StringLeqTotal(a: string, b: string)
    ensures StringLeq(a, b) || StringLeq(b, a)
    ensures StringLeq(a, b) && StringLeq(b, a) ==> a == b
  {
    if a != "" && b != "" && a[0] == b[0] {
      StringLeqTotal(a[1..], b[1..]);
      if a[1..] == b[1..] {
        assert a == [a[0]] + a[1..] && b == [b[0]] + b[1..];
      }
    }
  }

  lemma {:induction false} StringLeqTransitive(a: string, b: string, c: string)
    requires StringLeq(a, b) && StringLeq(b, c)
    ensures StringLeq(a, c)
  {
    if a != "" && a[0] == b[0] == c[0] {
      StringLeqTransitive(a[1..], b[1..], c[1..]);
    }
  }

  lemma StringOrder()
    ensures TotalOrder(StringLeq)
  {
    forall x, y
      ensures StringLeq(x, y) || StringLeq(y, x)
      ensures StringLeq(x, y) && StringLeq(y, x) ==> x == y
    {
      StringLeqTotal(x, y);
    }
    forall x, y, z | StringLeq(x, y) && StringLeq(y, z)
      ensures StringLeq(x, z)
    {
      StringLeqTransitive(x, y, z);
    }
  }

  function IndexIn(keys: seq<string>, key: string): (i: nat)
    ensures i <= |keys| && (i < |keys| ==> keys[i] == key)
    ensures forall k | 0 <= k < i :: keys[k] != key
  {
    if keys == [] || keys[0] == key then 0 else 1 + IndexIn(keys[1..], key)
  }

  /** Preferred keys come first, in their order; the others follow, sorted. */
  predicate Precedes(a: string, b: string) {
    var i, j := IndexIn(PREFERRED, a), IndexIn(PREFERRED, b);
    i < j || (i == j == |PREFERRED| && a != b && StringLeq(a, b))
  }

  lemma PreferredOnce()
    ensures forall i, j | 0 <= i < j < |PREFERRED| :: PREFERRED[i] != PREFERRED[j]
  {
    // The ninth is longer than all others, the others differ in length or first letter.
    assert forall i | 0 <= i < |PREFERRED| :: |PREFERRED[i]| == [7, 4, 8, 8, 4, 16, 14, 10, 19][i];
    assert PREFERRED[1][0] != PREFERRED[4][0] && PREFERRED[2][0] != PREFERRED[3][0];
  }

  lemma {:induction false} ChosenInOrder(n: nat, slot: Slot)
    requires n <= |PREFERRED|
    ensures var r := Chosen(PREFERRED[..n], slot);
            && (forall k | k in r :: IndexIn(PREFERRED, k) < n)
            && (forall i, j | 0 <= i < j < |r| :: IndexIn(PREFERRED, r[i]) < IndexIn(PREFERRED, r[j]))
  {
    if n > 0 {
      ChosenInOrder(n - 1, slot);
      PreferredOnce();
      assert PREFERRED[..n][..n - 1] == PREFERRED[..n - 1];
      assert IndexIn(PREFERRED, PREFERRED[n - 1]) == n - 1;
    }
  }

  /** With its own contract this determines the list: each key of the slot once, preferred
      ones first in their order, and the others sorted after them. */
  lemma KeysInOrder(slot: Slot, i: nat, j: nat)
    requires i < j < |KeysOf(slot)|
    ensures Precedes(KeysOf(slot)[i], KeysOf(slot)[j])
  {
    StringOrder();
    ChosenInOrder(|PREFERRED|, slot);
    assert PREFERRED[..|PREFERRED|] == PREFERRED;
    var first := Chosen(PREFERRED, slot);
    var others := Sorted(slot.Keys - Elements(first), StringLeq);
    forall k | k in others
      ensures IndexIn(PREFERRED, k) == |PREFERRED|
    {
      assert k in slot && k !in first;
    }
    assert KeysOf(slot) == first + others;
    if i < |first| {
      assert first[i] in first;
    }
    if j >= |first| {
      assert others[j - |first|] in others;
    }
  }

  // -------- What a printed line means --------

  predicate GoodKey(key: string) {
    Trimmed(key) && '=' !in key && OneLine(key)
  }

  predicate GoodValue(value: string) {
    Trimmed(value) && OneLine(value)
  }

  /** A slot that the printer can write so that the parser finds it again. */
  predicate GoodSlot(slot: Slot) {
    slot != map[] && forall k | k in slot :: GoodKey(k) && GoodValue(slot[k])
  }

  predicate Foreign(line: string) {
    Classify(line).OtherLine? && OneLine(line)
  }

  lemma {:induction false} DigitCountAfter(s: string, rest: string)
    requires (forall c | c in s :: IsDigit(c)) && rest != "" && !IsDigit(rest[0])
    ensures DigitCount(s + rest) == |s|
  {
    if s == "" {
      assert s + rest == rest;
    } else {
      assert (s + rest)[1..] == s[1..] + rest;
      DigitCountAfter(s[1..], rest);
    }
  }

  lemma PrefixIsFound(u: string)
    ensures Classify(PREFIX + u) == Entry(u)
  {
    var line := PREFIX + u;
    assert line[0] == 's';
    assert TrimLeft(line) == line;
    assert line[..|PREFIX|] == PREFIX && line[|PREFIX|..] == u;
  }

  lemma NumberIsFound(i: nat, v: string)
    ensures Entry(ToString(i) + ("." + v)) == Assignment(i, v)
  {
    var n := ToString(i);
    var u := n + ("." + v);
    DigitCountAfter(n, "." + v);
    assert u[..|n|] == n && u[|n| + 1..] == v;
    ToNatToString(i);
  }

  lemma AssignmentIsFound(i: nat, key: string, value: string)
    requires Trimmed(key) && '=' !in key && Trimmed(value)
    ensures Assignment(i, key + " = " + value) == SlotLine(i, key, value)
  {
    assert key + " = " + value == (key + " ") + ['='] + (" " + value);
    assert "" + key + " " == key + " " && " " + value + "" == " " + value;
    TrimPadded("", key, " ");
    TrimPadded(" ", value, "");
    hide Trim;
    SidesAreFound(i, key + " ", " " + value);
  }

  lemma SidesAreFound(i: nat, k: string, w: string)
    requires '=' !in k && k != ""
    ensures Assignment(i, k + ['='] + w) == SlotLine(i, Trim(k), Trim(w))
  {
    hide Trim;
    var v := k + ['='] + w;
    FindAfter(k, '=', w);
    assert v[..|k|] == k && v[|k| + 1..] == w;
  }

  lemma SlotTextIsSlotLine(i: nat, key: string, value: string)
    requires Trimmed(key) && '=' !in key && Trimmed(value)
    ensures Classify(SlotText(i, key, value)) == SlotLine(i, key, value)
  {
    PrefixIsFound(ToString(i) + ("." + (key + " = " + value)));
    NumberIsFound(i, key + " = " + value);
    AssignmentIsFound(i, key, value);
  }

  lemma CountIsFound(w: string)
    requires StartsWith(TrimLeft(w), "=")
    ensures Entry(COUNT + w) == CountLine
  {
    var u := COUNT + w;
    assert u[0] == 'c';
    assert DigitCount(u) == 0;
    assert u[..|COUNT|] == COUNT && u[|COUNT|..] == w;
  }

  lemma CountTextIsCountLine(n: nat)
    ensures Classify(CountText(n)) == CountLine
  {
    var v := "= " + ToString(n);
    var w := " " + v;
    assert " = " + ToString(n) == w;
    TrimLeftPadded(" ", v);
    assert TrimLeft(v) == v;
    CountIsFound(w);
    PrefixIsFound(COUNT + w);
  }

  lemma BlankIsForeign()
    ensures Foreign("")
  {
  }

  lemma OneLines(i: nat, key: string, value: string)
    requires OneLine(key) && OneLine(value)
    ensures OneLine(SlotText(i, key, value)) && OneLine(CountText(i)) && OneLine("")
  {
    assert OneLine(PREFIX) && OneLine(COUNT);
    assert OneLine(ToString(i));
  }

  /** What the proofs below need to know of the patterns. */
  ghost predicate Recognises(f: string -> Line) {
    && f("") == OtherLine
    && (forall n: nat :: f(CountText(n)) == CountLine)
    && (forall i: nat, key, value | GoodKey(key) && GoodValue(value) ::
          f(SlotText(i, key, value)) == SlotLine(i, key, value))
  }

  lemma ClassifyRecognises()
    ensures Recognises(Classify)
  {
    BlankIsForeign();
    forall n: nat
      ensures Classify(CountText(n)) == CountLine
    {
      CountTextIsCountLine(n);
    }
    forall i: nat, key, value | GoodKey(key) && GoodValue(value)
      ensures Classify(SlotText(i, key, value)) == SlotLine(i, key, value)
    {
      SlotTextIsSlotLine(i, key, value);
    }
  }

  // -------- Parsing what was printed --------

  lemma {:induction false} FeedAllAppend(f: string -> Line, p: Parsed, a: seq<string>, b: seq<string>)
    ensures FeedAll(f, p, a + b) == FeedAll(f, FeedAll(f, p, a), b)
  {
    if b == [] {
      assert a + b == a;
    } else {
      assert (a + b)[..|a + b| - 1] == a + b[..|b| - 1];
      FeedAllAppend(f, p, a, b[..|b| - 1]);
    }
  }

  lemma FeedLast(f: string -> Line, p: Parsed, lines: seq<string>, line: string)
    ensures FeedAll(f, p, lines + [line]) == Take(FeedAll(f, p, lines), f(line), line)
  {
    assert (lines + [line])[..|lines|] == lines;
  }

  lemma {:induction false} FeedForeign(f: string -> Line, p: Parsed, lines: seq<string>)
    requires forall l | l in lines :: f(l) == OtherLine
    ensures FeedAll(f, p, lines) == p.(preserved := p.preserved + lines)
  {
    if lines == [] {
      assert p.preserved + lines == p.preserved;
    } else {
      var n := |lines| - 1;
      var init, last := lines[..n], lines[n];
      assert lines == init + [last] && last in lines;
      FeedForeign(f, p, init);
      FeedLast(f, p, init, last);
      assert p.preserved + init + [last] == p.preserved + lines;
    }
  }

  /** The part of a slot under some of its keys. */
  function Part(slot: Slot, keys: seq<string>): Slot {
    map k | k in keys && k in slot :: slot[k]
  }

  lemma {:induction false} FeedSlot(f: string -> Line, p: Parsed, i: nat, slot: Slot, keys: seq<string>)
    requires Recognises(f) && GoodSlot(slot) && i !in p.slots && forall k | k in keys :: k in slot
    ensures FeedAll(f, p, SlotLines(i, slot, keys)) ==
            if keys == [] then p else p.(slots := p.slots[i := Part(slot, keys)])
  {
    if keys != [] {
      var n := |keys| - 1;
      var init, k := keys[..n], keys[n];
      assert k in keys && keys == init + [k];
      FeedSlot(f, p, i, slot, init);
      FeedLast(f, p, SlotLines(i, slot, init), SlotText(i, k, slot[k]));
      AddKey(p, i, slot, init, k, SlotText(i, k, slot[k]));
    }
  }

  lemma AddKey(p: Parsed, i: nat, slot: Slot, keys: seq<string>, k: string, line: string)
    requires i !in p.slots && k in slot && forall x | x in keys :: x in slot
    ensures Take(if keys == [] then p else p.(slots := p.slots[i := Part(slot, keys)]), SlotLine(i, k, slot[k]), line)
            == p.(slots := p.slots[i := Part(slot, keys + [k])])
  {
    assert Part(slot, keys + [k]) == (if keys == [] then map[] else Part(slot, keys))[k := slot[k]];
    assert p.slots[i := Part(slot, keys)][i := Part(slot, keys + [k])] == p.slots[i := Part(slot, keys + [k])];
  }

  function Numbered(slots: seq<Slot>): map<nat, Slot> {
    map i: nat | i < |slots| :: slots[i]
  }

  function Blanks(n: nat): (r: seq<string>)
    ensures |r| == n && forall l | l in r :: l == ""
  {
    if n == 0 then [] else Blanks(n - 1) + [""]
  }

  lemma {:induction false} FeedBody(f: string -> Line, order: Slot -> seq<string>, preserved: seq<string>,
                                    slots: seq<Slot>)
    requires Recognises(f) && Lists(order) && forall slot | slot in slots :: GoodSlot(slot)
    ensures FeedAll(f, Parsed(preserved, map[]), Body(order, slots)) ==
            Parsed(preserved + Blanks(|slots|), Numbered(slots))
  {
    hide Recognises, GoodSlot;
    if slots == [] {
      assert preserved + Blanks(0) == preserved;
    } else {
      var n := |slots| - 1;
      FeedBody(f, order, preserved, slots[..n]);
      assert slots[n] in slots;
      var init, slot, blanks := slots[..n], slots[n], preserved + Blanks(n);
      assert slots == init + [slot];
      FeedNext(f, blanks, init, slot, order(slot));
      FeedAllAppend(f, Parsed(preserved, map[]), Body(order, init), [""] + SlotLines(n, slot, order(slot)));
      assert blanks + [""] == preserved + Blanks(n + 1);
    }
  }

  lemma FeedNext(f: string -> Line, preserved: seq<string>, init: seq<Slot>, slot: Slot, keys: seq<string>)
    requires Recognises(f) && GoodSlot(slot) && forall k :: k in keys <==> k in slot
    ensures FeedAll(f, Parsed(preserved, Numbered(init)), [""] + SlotLines(|init|, slot, keys)) ==
            Parsed(preserved + [""], Numbered(init + [slot]))
  {
    var k :| k in slot;
    assert k in keys && f("") == OtherLine;
    hide Recognises, GoodSlot;
    FeedSeparator(f, Parsed(preserved, Numbered(init)), SlotLines(|init|, slot, keys));
    FeedSlot(f, Parsed(preserved + [""], Numbered(init)), |init|, slot, keys);
    assert Part(slot, keys) == slot;
    assert Numbered(init)[|init| := slot] == Numbered(init + [slot]);
  }

  lemma FeedSeparator(f: string -> Line, p: Parsed, lines: seq<string>)
    requires f("") == OtherLine
    ensures FeedAll(f, p, [""] + lines) == FeedAll(f, p.(preserved := p.preserved + [""]), lines)
  {
    FeedAllAppend(f, p, [""], lines);
    FeedForeign(f, p, [""]);
  }

  lemma {:induction false} SortedUpTo(s: seq<nat>, n: nat, from: nat)
    requires forall i :: i in s <==> from <= i < n
    requires forall i, j | 0 <= i < j < |s| :: s[i] < s[j]
    ensures |s| == (if from <= n then n - from else 0) && forall i | 0 <= i < |s| :: s[i] == from + i
    decreases |s|
  {
    if s == [] {
      assert from !in s;
    } else {
      assert s[0] in s;
      LeastIsFirst(s, n, from);
      SortedUpTo(s[1..], n, from + 1);
      assert forall i | 1 <= i < |s| :: s[i] == s[1..][i - 1];
    }
  }

  lemma LeastIsFirst(s: seq<nat>, n: nat, from: nat)
    requires from < n && forall i :: i in s <==> from <= i < n
    requires forall i, j | 0 <= i < j < |s| :: s[i] < s[j]
    ensures s != [] && s[0] == from && forall i :: i in s[1..] <==> from + 1 <= i < n
  {
    assert from in s && s[0] in s;
    var k :| 0 <= k < |s| && s[k] == from;
    assert k == 0;
    forall i
      ensures i in s[1..] <==> from + 1 <= i < n
    {
      if i in s[1..] {
        var j :| 0 <= j < |s[1..]| && s[1..][j] == i;
        assert s[0] < s[j + 1] && s[j + 1] in s;
      }
      if from + 1 <= i < n {
        assert i in s && s == [from] + s[1..];
      }
    }
  }

  /** Consecutive numbers come back in their order. */
  lemma NumberedInOrder(slots: seq<Slot>)
    ensures InOrder(Numbered(slots)) == slots
  {
    var m := Numbered(slots);
    var indices := Sorted(m.Keys, NatLeq);
    assert forall i :: i in indices <==> i in m;
    SortedUpTo(indices, |slots|, 0);
  }

  lemma DocumentIsLines(preserved: seq<string>, slots: seq<Slot>)
    requires forall l | l in preserved :: OneLine(l)
    requires forall slot | slot in slots :: GoodSlot(slot)
    ensures forall l | l in Document(preserved, slots) :: OneLine(l)
  {
    OneLines(|slots|, "", "");
    BodyIsLines(KeysOf, slots);
    assert forall l | l in DropBlanks(preserved) :: l in preserved;
  }

  lemma {:induction false} BodyIsLines(order: Slot -> seq<string>, slots: seq<Slot>)
    requires Lists(order) && forall slot | slot in slots :: GoodSlot(slot)
    ensures forall l | l in Body(order, slots) :: OneLine(l)
  {
    if slots != [] {
      var n := |slots| - 1;
      BodyIsLines(order, slots[..n]);
      assert slots[n] in slots;
      SlotLinesAreLines(n, slots[n], order(slots[n]));
    }
  }

  lemma {:induction false} SlotLinesAreLines(i: nat, slot: Slot, keys: seq<string>)
    requires GoodSlot(slot) && forall k | k in keys :: k in slot
    ensures forall l | l in SlotLines(i, slot, keys) :: OneLine(l)
  {
    if keys != [] {
      var n := |keys| - 1;
      assert keys[n] in keys;
      SlotLinesAreLines(i, slot, keys[..n]);
      OneLines(i, keys[n], slot[keys[n]]);
    }
  }

  lemma FeedDocument(f: string -> Line, order: Slot -> seq<string>, head: seq<string>, slots: seq<Slot>)
    requires Recognises(f) && Lists(order) && forall l | l in head :: f(l) == OtherLine
    requires forall slot | slot in slots :: GoodSlot(slot)
    ensures FeedAll(f, Parsed([], map[]), head + [CountText(|slots|)] + Body(order, slots)) ==
            Parsed(head + Blanks(|slots|), Numbered(slots))
  {
    var none, count := Parsed([], map[]), CountText(|slots|);
    FeedForeign(f, none, head);
    assert none.preserved + head == head;
    FeedLast(f, none, head, count);
    FeedAllAppend(f, none, head + [count], Body(order, slots));
    FeedBody(f, order, head, slots);
  }

  lemma HeadIsForeign(f: string -> Line, preserved: seq<string>)
    requires f("") == OtherLine && forall l | l in preserved :: f(l) == OtherLine
    ensures forall l | l in Separated(DropBlanks(preserved)) :: f(l) == OtherLine
  {
    assert forall l | l in DropBlanks(preserved) :: l in preserved;
  }

  /** Parsing what was printed gives the same slots, and the preserved lines up to blanks
      at their end: those that separated the printed parts. */
  lemma ParsePrint(preserved: seq<string>, slots: seq<Slot>)
    requires forall l | l in preserved :: Foreign(l)
    requires forall slot | slot in slots :: GoodSlot(slot)
    ensures Content(Some(Print(preserved, slots))) == (Separated(DropBlanks(preserved)) + Blanks(|slots|), slots)
  {
    DocumentIsLines(preserved, slots);
    SplitJoin(Document(preserved, slots));
    ClassifyRecognises();
    HeadIsForeign(Classify, preserved);
    FeedDocument(Classify, KeysOf, Separated(DropBlanks(preserved)), slots);
    NumberedInOrder(slots);
  }

  // -------- What parsing yields, for any file --------

  ghost predicate Trims(f: string -> Line) {
    forall l | OneLine(l) && f(l).SlotLine? :: GoodKey(f(l).key) && GoodValue(f(l).value)
  }

  lemma ClassifyTrims()
    ensures Trims(Classify)
  {
    forall l | OneLine(l) && Classify(l).SlotLine?
      ensures GoodKey(Classify(l).key) && GoodValue(Classify(l).value)
    {
      var u := TrimLeft(l)[|PREFIX|..];
      var v := u[DigitCount(u) + 1..];
      assert forall c | c in v :: c in l;
      AssignmentIsGood(ToNat(u[..DigitCount(u)]), v);
    }
  }

  lemma AssignmentIsGood(i: nat, v: string)
    requires OneLine(v)
    ensures Assignment(i, v).SlotLine? ==> GoodKey(Assignment(i, v).key) && GoodValue(Assignment(i, v).value)
  {
    hide Trim;
    var e := Find(v, '=');
    if e < |v| {
      TrimIsTrimmed(v[..e]);
      TrimIsTrimmed(v[e + 1..]);
    }
  }

  lemma {:induction false} FeedAllIsGood(f: string -> Line, lines: seq<string>)
    requires Trims(f) && forall l | l in lines :: OneLine(l)
    ensures var p := FeedAll(f, Parsed([], map[]), lines);
            && (forall l | l in p.preserved :: f(l) == OtherLine && OneLine(l))
            && (forall i | i in p.slots :: GoodSlot(p.slots[i]))
  {
    if lines != [] {
      var n := |lines| - 1;
      FeedAllIsGood(f, lines[..n]);
      assert lines[n] in lines;
      var p, c := FeedAll(f, Parsed([], map[]), lines[..n]), f(lines[n]);
      forall i | i in Take(p, c, lines[n]).slots
        ensures GoodSlot(Take(p, c, lines[n]).slots[i])
      {
        if c.SlotLine? && i == c.index {
          assert i in p.slots ==> GoodSlot(p.slots[i]);
          assert c.key in Take(p, c, lines[n]).slots[i];
        } else {
          assert i in p.slots;
        }
      }
    }
  }

  lemma InOrderMembers(slots: map<nat, Slot>)
    ensures forall slot | slot in InOrder(slots) :: exists i :: i in slots && slots[i] == slot
  {
    var indices := Sorted(slots.Keys, NatLeq);
    forall slot | slot in InOrder(slots)
      ensures exists i :: i in slots && slots[i] == slot
    {
      var k :| 0 <= k < |InOrder(slots)| && InOrder(slots)[k] == slot;
      assert indices[k] in indices;
    }
  }

  /** Whatever is in the file, the parser's result is what the printer can write. */
  lemma ContentIsGood(text: Option<string>)
    ensures forall l | l in Content(text).0 :: Foreign(l)
    ensures forall slot | slot in Content(text).1 :: GoodSlot(slot)
  {
    if text.Some? {
      ClassifyTrims();
      hide Classify;
      FeedAllIsGood(Classify, SplitLines(text.value));
      InOrderMembers(FeedAll(Classify, Parsed([], map[]), SplitLines(text.value)).slots);
    }
  }

  lemma {:induction false} DropBlanksPadded(lines: seq<string>, blanks: seq<string>)
    requires forall l | l in blanks :: Blank(l)
    ensures DropBlanks(lines + blanks) == DropBlanks(lines)
  {
    if blanks == [] {
      assert lines + blanks == lines;
    } else {
      var n := |blanks| - 1;
      assert (lines + blanks)[..|lines + blanks| - 1] == lines + blanks[..n];
      assert blanks[n] in blanks;
      DropBlanksPadded(lines, blanks[..n]);
    }
  }

  lemma SeparatorsAreDropped(preserved: seq<string>, n: nat)
    ensures DropBlanks(Separated(DropBlanks(preserved)) + Blanks(n)) == DropBlanks(preserved)
  {
    var kept := DropBlanks(preserved);
    DropBlanksPadded(Separated(kept), Blanks(n));
    DropBlanksPadded(kept, [""]);
    assert DropBlanks(kept) == kept;
  }

  lemma PrintedContent(preserved: seq<string>, slots: seq<Slot>)
    requires (forall l | l in preserved :: Foreign(l)) && forall slot | slot in slots :: GoodSlot(slot)
    ensures Content(Some(Print(preserved, slots))).1 == slots
    ensures DropBlanks(Content(Some(Print(preserved, slots))).0) == DropBlanks(preserved)
  {
    hide Classify, Content, Print;
    ParsePrint(preserved, slots);
    SeparatorsAreDropped(preserved, |slots|);
  }

  /** Rewriting a file normalises it: from then on, parsing and printing again changes
      nothing, and the slots are those of the original file. */
  lemma RewriteNormalises(text: Option<string>)
    ensures var (preserved, slots) := Content(text);
            var rewritten := Print(preserved, slots);
            && Content(Some(rewritten)).1 == slots
            && DropBlanks(Content(Some(rewritten)).0) == DropBlanks(preserved)
            && Print(Content(Some(rewritten)).0, Content(Some(rewritten)).1) == rewritten
  {
    var (preserved, slots) := Content(text);
    ContentIsGood(text);
    ParsePrint(preserved, slots);
    SeparatorsAreDropped(preserved, |slots|);
  }

  // -------- The parser and the printer as they run --------

  method Parse(text: Option<string>) returns (preserved: seq<string>, slots: seq<Slot>)
    ensures (preserved, slots) == Content(text)
  {
    hide Classify;
    preserved, slots := [], [];
    if text.None? {
      return;
    }
    var found: map<nat, Slot> := map[];
    var lines := SplitLines(text.value);
    for n := 0 to |lines|
      invariant Parsed(preserved, found) == FeedAll(Classify, Parsed([], map[]), lines[..n])
    {
      assert lines[..n + 1][..n] == lines[..n];
      match Classify(lines[n])
      case SlotLine(i, key, value) =>
        if i !in found {
          found := found[i := map[]];
        }
        found := found[i := found[i][key := value]];
      case CountLine =>
      case OtherLine =>
        preserved := preserved + [lines[n]];
    }
    assert lines[..|lines|] == lines;
    slots := InOrder(found);
  }

  lemma BodyNext(slots: seq<Slot>, i: nat)
    requires i < |slots|
    ensures Body(KeysOf, slots[..i + 1]) == Body(KeysOf, slots[..i]) + ([""] + SlotLines(i, slots[i], KeysOf(slots[i])))
  {
    hide KeysOf, SlotLines;
    assert slots[..i + 1][..i] == slots[..i];
  }

  lemma SlotLinesNext(i: nat, slot: Slot, keys: seq<string>, k: nat)
    requires k < |keys| && forall key | key in keys :: key in slot
    ensures keys[k] in keys
    ensures SlotLines(i, slot, keys[..k + 1]) == SlotLines(i, slot, keys[..k]) + [SlotText(i, keys[k], slot[keys[k]])]
  {
    hide SlotText;
    assert keys[..k + 1][..k] == keys[..k];
  }

  method Write(preserved: seq<string>, slots: seq<Slot>) returns (text: string)
    ensures text == Print(preserved, slots)
  {
    hide KeysOf, SlotText, CountText, Body, SlotLines, Blank, Join, Trim;
    var lines := preserved;
    while lines != [] && Trim(lines[|lines| - 1]) == ""
      invariant DropBlanks(lines) == DropBlanks(preserved)
    {
      BlankIsTrimmedAway(lines[|lines| - 1]);
      lines := lines[..|lines| - 1];
    }
    if lines != [] {
      BlankIsTrimmedAway(lines[|lines| - 1]);
      lines := lines + [""];
    }
    lines := lines + [CountText(|slots|)];
    ghost var head := lines;
    assert head == Separated(DropBlanks(preserved)) + [CountText(|slots|)];
    hide DropBlanks;
    NothingToWrite(slots);
    for i := 0 to |slots|
      invariant lines == head + Body(KeysOf, slots[..i])
    {
      ghost var before := lines;
      lines := lines + [""];
      var keys := KeysOf(slots[i]);
      NoLines(i, slots[i], keys);
      for k := 0 to |keys|
        invariant lines == before + ([""] + SlotLines(i, slots[i], keys[..k]))
      {
        SlotLinesNext(i, slots[i], keys, k);
        lines := lines + [SlotText(i, keys[k], slots[i][keys[k]])];
      }
      assert keys[..|keys|] == keys;
      BodyNext(slots, i);
    }
    assert slots[..|slots|] == slots;
    text := Join(lines);
  }

  lemma NothingToWrite(slots: seq<Slot>)
    ensures Body(KeysOf, slots[..0]) == []
  {
  }

  lemma NoLines(i: nat, slot: Slot, keys: seq<string>)
    requires forall key | key in keys :: key in slot
    ensures SlotLines(i, slot, keys[..0]) == []
  {
  }

  // -------- Adding and removing an isolated plugin --------

  function Lower(s: string): string {
    seq(|s|, i requires 0 <= i < |s| => if 'A' <= s[i] <= 'Z' then s[i] - 'A' + 'a' else s[i])
  }

  predicate IsManaged(slot: Slot) {
    "pdrManaged" in slot && Lower(slot["pdrManaged"]) == "true"
  }

  predicate HasName(slot: Slot, name: string) {
    "name" in slot && slot["name"] == name
  }

  /** The first slot of a name. */
  function FirstNamed(slots: seq<Slot>, name: string): (i: nat)
    ensures i <= |slots| && (i < |slots| ==> HasName(slots[i], name))
    ensures forall k | 0 <= k < i :: !HasName(slots[k], name)
  {
    if slots == [] || HasName(slots[0], name) then 0 else 1 + FirstNamed(slots[1..], name)
  }

  function Marked(slot: Slot, manifest: string): Slot {
    slot["pdrManaged" := "true"]["pdrInstanceManifest" := manifest]
  }

  function Applied(slots: seq<Slot>, slot: Slot, name: string): seq<Slot> {
    var i := FirstNamed(slots, name);
    if i < |slots| then slots[i := slot] else slots + [slot]
  }

  function Removed(slots: seq<Slot>, name: string): seq<Slot> {
    var i := FirstNamed(slots, name);
    if i < |slots| then slots[..i] + slots[i + 1..] else slots
  }

  /** Removing what was newly applied gives back the slots that were there. */
  lemma RemoveUndoesApply(slots: seq<Slot>, slot: Slot, name: string)
    requires FirstNamed(slots, name) == |slots| && HasName(slot, name)
    ensures Removed(Applied(slots, slot, name), name) == slots
  {
    hide FirstNamed, HasName;
    var applied := slots + [slot];
    assert forall k | 0 <= k < |slots| :: applied[k] == slots[k];
    assert applied[|slots|] == slot && FirstNamed(applied, name) == |slots|;
    assert applied[..|slots|] + applied[|slots| + 1..] == slots;
  }

  class Configuration {
    var text: Option<string>
    ghost var disturbed: bool

    function Preserved(): seq<string>
      reads `text
    {
      Content(text).0
    }

    function Slots(): seq<Slot>
      reads `text
    {
      Content(text).1
    }

    method Step() returns (s: Status)
      modifies `disturbed
      ensures disturbed == (old(disturbed) || !s.Done?)
    {
      s := *;
      disturbed := disturbed || !s.Done?;
    }

    /** The file can be changed for an instance: its name is free, or its entry is managed. */
    predicate MayChange(name: string)
      reads `text
    {
      var i := FirstNamed(Slots(), name);
      i < |Slots()| ==> IsManaged(Slots()[i])
    }

    /** Replaces the file; a failure leaves it as it was. */
    method Rewrite(preserved: seq<string>, slots: seq<Slot>) returns (s: Status)
      modifies this
      ensures text == if s.Done? then Some(Print(preserved, slots)) else old(text)
      ensures disturbed == (old(disturbed) || !s.Done?)
    {
      var printed := Write(preserved, slots);
      :- Step();
      text := Some(printed);
      return Done;
    }

    /** Adds the instance, or brings its entry up to date, and reports it. */
    method Apply(slot: Slot, name: string, manifest: string) returns (s: Status)
      requires GoodSlot(slot) && GoodValue(manifest)
      modifies this
      ensures s.Done? || text != old(text) ==>
                && Slots() == Applied(old(Slots()), Marked(slot, manifest), name)
                && DropBlanks(Preserved()) == DropBlanks(old(Preserved()))
                && HasName(slot, name) && "path" in slot && old(MayChange(name))
      ensures !disturbed ==> (s.Done? <==> HasName(slot, name) && "path" in slot && old(MayChange(name)))
    {
      hide Classify, Print, Content, GoodSlot, FirstNamed, HasName, IsManaged, Marked;
      disturbed := false;
      if !HasName(slot, name) || "path" !in slot {
        return Raised;
      }
      var entry := Marked(slot, manifest);
      EntryIsGood(slot, manifest);
      ContentIsGood(text);
      :- Step();
      var preserved, slots := Parse(text);
      var i := FirstNamed(slots, name);
      var changed := true;
      if i < |slots| {
        if !IsManaged(slots[i]) {
          return Raised;
        }
        changed := slots[i] != entry;
        slots := slots[i := entry];
      } else {
        slots := slots + [entry];
      }
      if changed {
        PrintedContent(preserved, slots);
        :- Rewrite(preserved, slots);
      }
      s := Step();
    }

    /** Takes the instance out, and reports it; an absent one is no error. */
    method Remove(name: string) returns (s: Status)
      modifies this
      ensures s.Done? || text != old(text) ==>
                && Slots() == Removed(old(Slots()), name)
                && DropBlanks(Preserved()) == DropBlanks(old(Preserved()))
                && old(MayChange(name))
      ensures !disturbed ==> (s.Done? <==> old(MayChange(name)))
    {
      hide Classify, Print, Content, GoodSlot, FirstNamed, HasName, IsManaged, Marked;
      disturbed := false;
      ContentIsGood(text);
      :- Step();
      var preserved, slots := Parse(text);
      var i := FirstNamed(slots, name);
      if i < |slots| {
        if !IsManaged(slots[i]) {
          return Raised;
        }
        slots := slots[..i] + slots[i + 1..];
        PrintedContent(preserved, slots);
        :- Rewrite(preserved, slots);
      }
      s := Step();
    }
  }

  lemma EntryIsGood(slot: Slot, manifest: string)
    requires GoodSlot(slot) && GoodValue(manifest)
    ensures GoodSlot(Marked(slot, manifest))
  {
    var e := Marked(slot, manifest);
    assert "pdrManaged" in e;
    assert GoodValue("true");
    assert GoodKey("pdrManaged") && GoodKey("pdrInstanceManifest");
  }

  /** Applying a new instance and removing it again gives back the original slots. */
  method ApplyAndRemove(c: Configuration, slot: Slot, name: string, manifest: string) returns (s: Status)
    requires GoodSlot(slot) && GoodValue(manifest)
    modifies c
    ensures s.Done? && FirstNamed(old(c.Slots()), name) == |old(c.Slots())| ==>
              c.Slots() == old(c.Slots()) && DropBlanks(c.Preserved()) == DropBlanks(old(c.Preserved()))
  {
    hide Classify, GoodSlot, Content;
    :- c.Apply(slot, name, manifest);
    :- c.Remove(name);
    if FirstNamed(old(c.Slots()), name) == |old(c.Slots())| {
      RemoveUndoesApply(old(c.Slots()), Marked(slot, manifest), name);
    }
    return Done;
  }
}
