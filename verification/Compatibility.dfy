/** The check that a public surface does not break its baseline without a new major version. */
module Compatibility {
  import opened Faults
  import opened Text

  datatype Value = Number(n: real) | Words(s: string) | Flag(b: bool)

  /** A definition of the configuration schema; `others` are the keys that are not known. */
  datatype Definition = Definition(
    kind: Option<string>,
    minimum: Option<real>,
    maximum: Option<real>,
    minLength: Option<int>,
    maxLength: Option<int>,
    choices: Option<set<Value>>,
    others: map<string, string>)

  predicate TooHigh(was: Option<real>, now: Option<real>) {
    was.Some? && (now.None? || now.value > was.value)
  }

  predicate TooLow(was: Option<real>, now: Option<real>) {
    was.Some? && (now.None? || now.value < was.value)
  }

  predicate ConstraintsBreaking(was: Definition, now: Definition) {
    if was.kind != now.kind then true
    else if TooHigh(was.minimum, now.minimum) then true
    else if TooLow(was.maximum, now.maximum) then true
    else if was.minLength.Some? && (now.minLength.None? || now.minLength.value > was.minLength.value) then true
    else if was.maxLength.Some? && (now.maxLength.None? || now.maxLength.value < was.maxLength.value) then true
    else if was.choices.Some? && (now.choices.None? || !(was.choices.value <= now.choices.value)) then true
    else was.others != now.others
  }

  // -------- What a definition accepts --------

  predicate IsKind(kind: string, v: Value) {
    match v
    case Number(n) => kind == "number" || (kind == "integer" && n.Floor as real == n)
    case Words(_) => kind == "string"
    case Flag(_) => kind == "boolean"
  }

  /** The constraints of a JSON schema; those of another type do not apply. */
  predicate Accepts(d: Definition, v: Value) {
    && (d.kind.Some? ==> IsKind(d.kind.value, v))
    && (v.Number? && d.minimum.Some? ==> d.minimum.value <= v.n)
    && (v.Number? && d.maximum.Some? ==> v.n <= d.maximum.value)
    && (v.Words? && d.minLength.Some? ==> d.minLength.value <= |v.s|)
    && (v.Words? && d.maxLength.Some? ==> |v.s| <= d.maxLength.value)
    && (d.choices.Some? ==> v in d.choices.value)
  }

  /** The constraints that only the new definition has. */
  function Added(was: Definition, now: Definition): Definition {
    Definition(
      None,
      if was.minimum.None? then now.minimum else None,
      if was.maximum.None? then now.maximum else None,
      if was.minLength.None? then now.minLength else None,
      if was.maxLength.None? then now.maxLength else None,
      if was.choices.None? then now.choices else None,
      map[])
  }

  ghost predicate KeepsAccepting(was: Definition, now: Definition) {
    forall v | Accepts(was, v) :: Accepts(now, v)
  }

  /** A change that is not reported keeps a value acceptable exactly when the value meets
      the constraints that were added. */
  lemma OnlyAddedConstraintsReject(was: Definition, now: Definition, v: Value)
    requires !ConstraintsBreaking(was, now) && Accepts(was, v)
    ensures Accepts(now, v) <==> Accepts(Added(was, now), v)
  {
  }

  function Whole(k: int): Value {
    Number(k as real)
  }

  predicate Numeric(d: Definition) {
    d.kind == Some("integer") || d.kind == Some("number")
  }

  lemma WholeNumbersAreNumeric(d: Definition, k: int)
    requires Numeric(d)
    ensures d.kind.Some? && IsKind(d.kind.value, Number(k as real))
  {
    assert (k as real).Floor == k;
  }

  /** A number below `x` that a definition accepts, when it has no minimum and no choices. */
  lemma AcceptsBelow(d: Definition, x: real) returns (k: int)
    requires Numeric(d) && d.minimum.None? && d.choices.None?
    ensures Accepts(d, Number(k as real)) && k as real < x
  {
    var bound := if d.maximum.Some? && d.maximum.value < x then d.maximum.value else x;
    k := bound.Floor - 1;
    WholeNumbersAreNumeric(d, k);
    hide Numeric, IsKind;
  }

  lemma AcceptsAbove(d: Definition, x: real) returns (k: int)
    requires Numeric(d) && d.maximum.None? && d.choices.None?
    ensures Accepts(d, Number(k as real)) && k as real > x
  {
    var bound := if d.minimum.Some? && d.minimum.value > x then d.minimum.value else x;
    k := bound.Floor + 1;
    WholeNumbersAreNumeric(d, k);
    hide Numeric, IsKind;
  }

  /** No finite set holds all numbers of an interval, nor all below or above a bound. */
  lemma {:induction false} OutsideInterval(choices: set<Value>, low: real, high: real) returns (x: real)
    requires low < high
    ensures low < x <= high && Number(x) !in choices
    decreases |choices|
  {
    x := high;
    if Number(high) in choices {
      x := OutsideInterval(choices - {Number(high)}, low, (low + high) / 2.0);
    }
  }

  lemma {:induction false} OutsideBounds(choices: set<Value>) returns (low: real, high: real)
    ensures forall v | v in choices && v.Number? :: low <= v.n <= high
    decreases |choices|
  {
    low, high := 0.0, 0.0;
    if choices != {} {
      var v :| v in choices;
      low, high := OutsideBounds(choices - {v});
      if v.Number? {
        low, high := if v.n < low then v.n else low, if v.n > high then v.n else high;
      }
      assert forall w | w in choices && w != v :: w in choices - {v};
    }
  }

  /** Every number that a definition without choices accepts is among some choices. */
  ghost predicate Exhausts(d: Definition, choices: set<Value>) {
    && d.minimum.Some? && d.maximum.Some?
    && if d.kind == Some("integer") then
         forall k: int | d.minimum.value <= k as real <= d.maximum.value :: Whole(k) in choices
       else
         d.minimum.value > d.maximum.value || (d.minimum.value == d.maximum.value && Number(d.minimum.value) in choices)
  }

  lemma ExhaustsExactly(d: Definition, choices: set<Value>)
    requires Numeric(d) && d.choices.None?
    ensures Exhausts(d, choices) <==> forall v | Accepts(d, v) :: v in choices
  {
    var low, high := OutsideBounds(choices);
    if d.minimum.None? {
      var k := AcceptsBelow(d, low);
      assert Accepts(d, Number(k as real)) && Number(k as real) !in choices;
    } else if d.maximum.None? {
      var k := AcceptsAbove(d, high);
      assert Accepts(d, Number(k as real)) && Number(k as real) !in choices;
    } else if d.kind == Some("integer") {
      IntegersAccepted(d, choices);
    } else {
      RealsAccepted(d, choices);
    }
  }

  lemma IntegersAccepted(d: Definition, choices: set<Value>)
    requires d.kind == Some("integer") && d.choices.None? && d.minimum.Some? && d.maximum.Some?
    ensures Exhausts(d, choices) <==> forall v | Accepts(d, v) :: v in choices
  {
    forall k: int | d.minimum.value <= k as real <= d.maximum.value
      ensures Accepts(d, Whole(k))
    {
      WholeNumbersAreNumeric(d, k);
    }
    forall v | Accepts(d, v)
      ensures v.Number? && v == Whole(v.n.Floor)
    {
    }
  }

  lemma RealsAccepted(d: Definition, choices: set<Value>)
    requires d.kind == Some("number") && d.choices.None? && d.minimum.Some? && d.maximum.Some?
    ensures Exhausts(d, choices) <==> forall v | Accepts(d, v) :: v in choices
  {
    if d.minimum.value < d.maximum.value {
      var x := OutsideInterval(choices, d.minimum.value, d.maximum.value);
      assert Accepts(d, Number(x)) && Number(x) !in choices;
    } else if d.minimum.value == d.maximum.value {
      assert Accepts(d, Number(d.minimum.value));
    }
  }

  /** The old choices that the old definition accepts meet what was added. */
  ghost predicate ChoicesMeet(was: Definition, added: Definition)
    requires was.choices.Some?
  {
    forall v | v in was.choices.value && Accepts(was, v) :: Accepts(added, v)
  }

  lemma ChoicesStayAccepted(was: Definition, now: Definition)
    requires !ConstraintsBreaking(was, now) && was.choices.Some?
    ensures KeepsAccepting(was, now) <==> ChoicesMeet(was, Added(was, now))
  {
    forall v | Accepts(was, v)
      ensures v in was.choices.value && (Accepts(now, v) <==> Accepts(Added(was, now), v))
    {
      OnlyAddedConstraintsReject(was, now, v);
    }
  }

  /** What added numeric constraints must be like to reject nothing: no bound in a direction
      that had none, and choices only if they hold all numbers between the bounds. */
  ghost predicate AddsNothingToNumbers(was: Definition, now: Definition) {
    && Added(was, now).minimum.None? && Added(was, now).maximum.None?
    && (now.choices.Some? ==> Exhausts(was, now.choices.value))
  }

  /** For numbers, an unreported change keeps every value acceptable if and only if the old
      choices meet what was added; or without old choices, if and only if nothing is added. */
  lemma NumbersStayAccepted(was: Definition, now: Definition)
    requires !ConstraintsBreaking(was, now) && Numeric(was)
    ensures KeepsAccepting(was, now) <==>
            if was.choices.Some? then ChoicesMeet(was, Added(was, now)) else AddsNothingToNumbers(was, now)
  {
    var a := Added(was, now);
    if was.choices.Some? {
      ChoicesStayAccepted(was, now);
    } else if a.minimum.Some? {
      var k := AcceptsBelow(was, a.minimum.value);
      assert Accepts(was, Number(k as real)) && !Accepts(now, Number(k as real));
    } else if a.maximum.Some? {
      var k := AcceptsAbove(was, a.maximum.value);
      assert Accepts(was, Number(k as real)) && !Accepts(now, Number(k as real));
    } else {
      forall v | Accepts(was, v)
        ensures Accepts(now, v) <==> (now.choices.Some? ==> v in now.choices.value)
      {
        OnlyAddedConstraintsReject(was, now, v);
        WordsAreNotNumeric(was, v);
      }
      if now.choices.Some? {
        ExhaustsExactly(was, now.choices.value);
      }
    }
  }

  lemma WordsAreNotNumeric(d: Definition, v: Value)
    requires Numeric(d) && Accepts(d, v)
    ensures v.Number?
  {
  }

  function Repeat(n: nat): (s: string)
    ensures |s| == n
  {
    if n == 0 then "" else "x" + Repeat(n - 1)
  }

  lemma {:induction false} LongerThanAll(choices: set<Value>) returns (n: nat)
    ensures forall v | v in choices && v.Words? :: |v.s| < n
    decreases |choices|
  {
    n := 0;
    if choices != {} {
      var v :| v in choices;
      n := LongerThanAll(choices - {v});
      if v.Words? && |v.s| >= n {
        n := |v.s| + 1;
      }
      assert forall w | w in choices && w != v :: w in choices - {v};
    }
  }

  /** The lengths that the old bounds allow. */
  predicate Fits(d: Definition, n: nat) {
    && (d.minLength.Some? ==> d.minLength.value <= n)
    && (d.maxLength.Some? ==> n <= d.maxLength.value)
  }

  /** What added string constraints must be like to reject nothing. */
  ghost predicate AddsNothingToStrings(was: Definition, now: Definition) {
    var a := Added(was, now);
    && a.maxLength.None?
    && (a.minLength.Some? && a.minLength.value > 0 ==> was.maxLength.Some? && was.maxLength.value < 0)
    && (now.choices.Some? ==>
          was.maxLength.Some? && forall s: string | Fits(was, |s|) :: Words(s) in now.choices.value)
  }

  /** For strings, if and only if the old choices meet what was added; or without old
      choices, if and only if no maximum length is added, no minimum length that some
      string does not have, and added choices hold all strings of the allowed lengths. */
  lemma StringsStayAccepted(was: Definition, now: Definition)
    requires !ConstraintsBreaking(was, now) && was.kind == Some("string")
    ensures KeepsAccepting(was, now) <==>
            if was.choices.Some? then ChoicesMeet(was, Added(was, now)) else AddsNothingToStrings(was, now)
  {
    var a := Added(was, now);
    if was.choices.Some? {
      ChoicesStayAccepted(was, now);
    } else if a.maxLength.Some? {
      var n := if was.minLength.Some? && was.minLength.value > a.maxLength.value then was.minLength.value
               else a.maxLength.value + 1;
      StringRejected(was, now, Repeat(if n < 0 then 0 else n));
    } else if a.minLength.Some? && a.minLength.value > 0 && !(was.maxLength.Some? && was.maxLength.value < 0) {
      StringRejected(was, now, "");
    } else if now.choices.Some? && was.maxLength.None? {
      var n := LongerThanAll(now.choices.value);
      var most := if was.minLength.Some? && was.minLength.value > n then was.minLength.value else n;
      StringRejected(was, now, Repeat(most));
    } else {
      forall v | Accepts(was, v)
        ensures v.Words? && Fits(was, |v.s|) && (Accepts(now, v) <==> (now.choices.Some? ==> v in now.choices.value))
      {
        OnlyAddedConstraintsReject(was, now, v);
      }
      forall s: string | Fits(was, |s|)
        ensures Accepts(was, Words(s))
      {
      }
    }
  }

  lemma StringRejected(was: Definition, now: Definition, s: string)
    requires Accepts(was, Words(s)) && !Accepts(now, Words(s))
    ensures !KeepsAccepting(was, now)
  {
  }

  ghost predicate AddsNothingToFlags(now: Definition) {
    now.choices.Some? ==> {Flag(true), Flag(false)} <= now.choices.value
  }

  lemma FlagsStayAccepted(was: Definition, now: Definition)
    requires !ConstraintsBreaking(was, now) && was.kind == Some("boolean")
    ensures KeepsAccepting(was, now) <==>
            if was.choices.Some? then ChoicesMeet(was, Added(was, now)) else AddsNothingToFlags(now)
  {
    if was.choices.Some? {
      ChoicesStayAccepted(was, now);
    } else {
      assert Accepts(was, Flag(true)) && Accepts(was, Flag(false));
      assert Accepts(now, Flag(true)) && Accepts(now, Flag(false)) <==> AddsNothingToFlags(now);
    }
  }

  /** What an added constraint must be like to reject no value, whatever the type. */
  ghost predicate AddsNothing(was: Definition, now: Definition) {
    match was.kind
    case None => AddsNothingToNumbers(OfKind(was, "number"), OfKind(now, "number"))
                 && AddsNothingToStrings(was, now) && AddsNothingToFlags(now)
    case Some(kind) =>
      && (kind == "number" || kind == "integer" ==> AddsNothingToNumbers(was, now))
      && (kind == "string" ==> AddsNothingToStrings(was, now))
      && (kind == "boolean" ==> AddsNothingToFlags(now))
  }

  function OfKind(d: Definition, kind: string): Definition {
    d.(kind := Some(kind))
  }

  /** Without a type, a definition accepts what it accepts with each. */
  lemma UntypedIsEachType(was: Definition, now: Definition)
    requires was.kind.None? && now.kind.None?
    ensures KeepsAccepting(was, now) <==>
            && KeepsAccepting(OfKind(was, "number"), OfKind(now, "number"))
            && KeepsAccepting(OfKind(was, "string"), OfKind(now, "string"))
            && KeepsAccepting(OfKind(was, "boolean"), OfKind(now, "boolean"))
  {
    forall v, kind | kind in {"number", "string", "boolean"}
      ensures Accepts(OfKind(was, kind), v) <==> Accepts(was, v) && IsKind(kind, v)
      ensures Accepts(OfKind(now, kind), v) <==> Accepts(now, v) && IsKind(kind, v)
    {
    }
    forall v: Value
      ensures IsKind("number", v) || IsKind("string", v) || IsKind("boolean", v)
    {
    }
    hide Accepts, IsKind;
    if KeepsAccepting(OfKind(was, "number"), OfKind(now, "number"))
       && KeepsAccepting(OfKind(was, "string"), OfKind(now, "string"))
       && KeepsAccepting(OfKind(was, "boolean"), OfKind(now, "boolean")) {
      forall v | Accepts(was, v)
        ensures Accepts(now, v)
      {
        var kind :| kind in {"number", "string", "boolean"} && IsKind(kind, v);
        assert Accepts(OfKind(was, kind), v);
        assert Accepts(OfKind(now, kind), v);
      }
    }
  }

  /** For any definition, an unreported change keeps every value acceptable if and only if the
      old choices meet what was added; or without old choices, if and only if what was added
      constrains no value of the type. */
  lemma StaysAccepted(was: Definition, now: Definition)
    requires !ConstraintsBreaking(was, now)
    ensures KeepsAccepting(was, now) <==>
            if was.choices.Some? then ChoicesMeet(was, Added(was, now)) else AddsNothing(was, now)
  {
    if was.choices.Some? {
      ChoicesStayAccepted(was, now);
    } else if was.kind.None? {
      UntypedIsEachType(was, now);
      NumbersStayAccepted(OfKind(was, "number"), OfKind(now, "number"));
      StringsStayAccepted(OfKind(was, "string"), OfKind(now, "string"));
      FlagsStayAccepted(OfKind(was, "boolean"), OfKind(now, "boolean"));
    } else if Numeric(was) {
      NumbersStayAccepted(was, now);
    } else if was.kind == Some("string") {
      StringsStayAccepted(was, now);
    } else if was.kind == Some("boolean") {
      FlagsStayAccepted(was, now);
    } else {
      NoValueOfKind(was);
    }
  }

  lemma NoValueOfKind(d: Definition)
    requires d.kind.Some? && d.kind.value !in {"number", "integer", "string", "boolean"}
    ensures forall v :: !Accepts(d, v)
  {
  }

  lemma NothingAddedKeepsAccepting(was: Definition, now: Definition)
    requires !ConstraintsBreaking(was, now)
    requires Added(was, now) == Definition(None, None, None, None, None, None, map[])
    ensures KeepsAccepting(was, now)
  {
    forall v | Accepts(was, v)
      ensures Accepts(now, v)
    {
      OnlyAddedConstraintsReject(was, now, v);
    }
  }

  lemma ConstraintsCompose(a: Definition, b: Definition, c: Definition)
    requires !ConstraintsBreaking(a, b) && !ConstraintsBreaking(b, c)
    ensures !ConstraintsBreaking(a, c)
  {
  }

  // -------- Surfaces --------

  /** An empty contract counts as none. */
  datatype Plugin = Plugin(apiVersion: Option<string>, abiVersion: Option<string>, headers: seq<string>)

  datatype Surface = Surface(
    runtimeVersion: string,
    plugin: Option<Plugin>,
    targets: seq<string>,
    headers: map<string, seq<string>>,
    properties: map<string, Definition>,
    patterns: map<string, Definition>,
    required: set<string>,
    operations: seq<string>,
    channels: map<string, string>)

  datatype Breaking =
    | RemovedPlugin
    | ChangedApi
    | ChangedAbi
    | RemovedManifestHeader(header: string)
    | RemovedTarget(target: string)
    | RemovedHeader(path: string)
    | RemovedType(path: string, name: string)
    | RemovedProperty(property: string)
    | ChangedProperty(property: string)
    | RemovedPattern(pattern: string)
    | ChangedPattern(pattern: string)
    | NewRequired(property: string)
    | RemovedOperation(operation: string)
    | RemovedChannel(channel: string)
    | ChangedAddress(channel: string)

  predicate BothPlugins(was: Surface, now: Surface) {
    was.plugin.Some? && now.plugin.Some?
  }

  /** What counts as a breaking change. */
  predicate Breaks(x: Breaking, was: Surface, now: Surface) {
    match x
    case RemovedPlugin => was.plugin.Some? && now.plugin.None?
    case ChangedApi => BothPlugins(was, now) && was.plugin.value.apiVersion != now.plugin.value.apiVersion
    case ChangedAbi => BothPlugins(was, now) && was.plugin.value.abiVersion != now.plugin.value.abiVersion
    case RemovedManifestHeader(h) =>
      BothPlugins(was, now) && h in was.plugin.value.headers && h !in now.plugin.value.headers
    case RemovedTarget(t) => t in was.targets && t !in now.targets
    case RemovedHeader(p) => p in was.headers && p !in now.headers
    case RemovedType(p, n) => p in was.headers && p in now.headers && n in was.headers[p] && n !in now.headers[p]
    case RemovedProperty(p) => p in was.properties && p !in now.properties
    case ChangedProperty(p) =>
      p in was.properties && p in now.properties && ConstraintsBreaking(was.properties[p], now.properties[p])
    case RemovedPattern(p) => p in was.patterns && p !in now.patterns
    case ChangedPattern(p) =>
      p in was.patterns && p in now.patterns && ConstraintsBreaking(was.patterns[p], now.patterns[p])
    case NewRequired(p) => p in now.required && p !in was.required
    case RemovedOperation(o) => o in was.operations && o !in now.operations
    case RemovedChannel(c) => c in was.channels && c !in now.channels
    case ChangedAddress(c) => c in was.channels && c in now.channels && now.channels[c] != was.channels[c]
  }

  ghost predicate NoBreak(was: Surface, now: Surface) {
    forall x :: !Breaks(x, was, now)
  }

  lemma NoBreakComposes(a: Surface, b: Surface, c: Surface)
    requires NoBreak(a, b) && NoBreak(b, c)
    ensures NoBreak(a, c)
  {
    forall x
      ensures !Breaks(x, a, c)
    {
      assert !Breaks(x, a, b) && !Breaks(x, b, c);
      match x
      case RemovedPlugin =>
      case ChangedApi => assert !Breaks(RemovedPlugin, a, b);
      case ChangedAbi => assert !Breaks(RemovedPlugin, a, b);
      case RemovedManifestHeader(h) => assert !Breaks(RemovedPlugin, a, b);
      case RemovedType(p, n) => assert !Breaks(RemovedHeader(p), a, b);
      case ChangedProperty(p) =>
        assert !Breaks(RemovedProperty(p), a, b);
        if p in a.properties && p in c.properties {
          ConstraintsCompose(a.properties[p], b.properties[p], c.properties[p]);
        }
      case ChangedPattern(p) =>
        assert !Breaks(RemovedPattern(p), a, b);
        if p in a.patterns && p in c.patterns {
          ConstraintsCompose(a.patterns[p], b.patterns[p], c.patterns[p]);
        }
      case ChangedAddress(ch) => assert !Breaks(RemovedChannel(ch), a, b);
      case _ =>
    }
  }

  // -------- Versions --------

  function SplitAt(s: string, c: char): (parts: seq<string>)
    ensures parts != []
    decreases |s|
  {
    var i := Find(s, c);
    if i == |s| then [s] else [s[..i]] + SplitAt(s[i + 1..], c)
  }

  predicate IsNumber(s: string) {
    s != "" && forall c | c in s :: IsDigit(c)
  }

  /** Three numbers between dots, or no version. */
  function VersionTuple(value: string): Option<(nat, nat, nat)> {
    var parts := SplitAt(value, '.');
    if |parts| == 3 && IsNumber(parts[0]) && IsNumber(parts[1]) && IsNumber(parts[2])
    then Some((ToNat(parts[0]), ToNat(parts[1]), ToNat(parts[2])))
    else None
  }

  predicate Versioned(s: Surface) {
    VersionTuple(s.runtimeVersion).Some?
  }

  function Major(s: Surface): nat
    requires Versioned(s)
  {
    VersionTuple(s.runtimeVersion).value.0
  }

  // -------- The comparison --------

  method ComparePlugin(was: Surface, now: Surface) returns (found: set<Breaking>)
    ensures forall x :: x in found <==>
              (x.RemovedPlugin? || x.ChangedApi? || x.ChangedAbi? || x.RemovedManifestHeader?) && Breaks(x, was, now)
  {
    found := {};
    if was.plugin.Some? {
      if now.plugin.None? {
        return {RemovedPlugin};
      }
      if was.plugin.value.apiVersion != now.plugin.value.apiVersion {
        found := found + {ChangedApi};
      }
      if was.plugin.value.abiVersion != now.plugin.value.abiVersion {
        found := found + {ChangedAbi};
      }
      var headers := was.plugin.value.headers;
      for i := 0 to |headers|
        invariant forall x :: x in found <==>
                    && Breaks(x, was, now)
                    && (x.ChangedApi? || x.ChangedAbi? || (x.RemovedManifestHeader? && x.header in headers[..i]))
      {
        if headers[i] !in now.plugin.value.headers {
          found := found + {RemovedManifestHeader(headers[i])};
        }
      }
    }
  }

  method CompareLists(was: seq<string>, now: seq<string>) returns (removed: set<string>)
    ensures forall n :: n in removed <==> n in was && n !in now
  {
    removed := {};
    for i := 0 to |was|
      invariant forall n :: n in removed <==> n in was[..i] && n !in now
    {
      if was[i] !in now {
        removed := removed + {was[i]};
      }
    }
  }

  method CompareHeaders(was: map<string, seq<string>>, now: map<string, seq<string>>)
    returns (removed: set<string>, types: set<(string, string)>)
    ensures forall p :: p in removed <==> p in was && p !in now
    ensures forall p, n :: (p, n) in types <==> p in was && p in now && n in was[p] && n !in now[p]
  {
    removed, types := {}, {};
    var rest := was.Keys;
    while rest != {}
      invariant rest <= was.Keys
      invariant forall p :: p in removed <==> p in was && p !in rest && p !in now
      invariant forall p, n :: (p, n) in types <==> p in was && p !in rest && p in now && n in was[p] && n !in now[p]
      decreases |rest|
    {
      var p :| p in rest;
      rest := rest - {p};
      if p !in now {
        removed := removed + {p};
      } else {
        var names := CompareLists(was[p], now[p]);
        types := types + set n | n in names :: (p, n);
      }
    }
  }

  method CompareDefinitions(was: map<string, Definition>, now: map<string, Definition>)
    returns (removed: set<string>, changed: set<string>)
    ensures forall p :: p in removed <==> p in was && p !in now
    ensures forall p :: p in changed <==> p in was && p in now && ConstraintsBreaking(was[p], now[p])
  {
    removed, changed := {}, {};
    var rest := was.Keys;
    while rest != {}
      invariant rest <= was.Keys
      invariant forall p :: p in removed <==> p in was && p !in rest && p !in now
      invariant forall p :: p in changed <==> p in was && p !in rest && p in now && ConstraintsBreaking(was[p], now[p])
      decreases |rest|
    {
      var p :| p in rest;
      rest := rest - {p};
      if p !in now {
        removed := removed + {p};
      } else if ConstraintsBreaking(was[p], now[p]) {
        changed := changed + {p};
      }
    }
  }

  method CompareChannels(was: map<string, string>, now: map<string, string>)
    returns (removed: set<string>, changed: set<string>)
    ensures forall p :: p in removed <==> p in was && p !in now
    ensures forall p :: p in changed <==> p in was && p in now && now[p] != was[p]
  {
    removed, changed := {}, {};
    var rest := was.Keys;
    while rest != {}
      invariant rest <= was.Keys
      invariant forall p :: p in removed <==> p in was && p !in rest && p !in now
      invariant forall p :: p in changed <==> p in was && p !in rest && p in now && now[p] != was[p]
      decreases |rest|
    {
      var p :| p in rest;
      rest := rest - {p};
      if p !in now {
        removed := removed + {p};
      } else if now[p] != was[p] {
        changed := changed + {p};
      }
    }
  }

  method CompareLibrary(was: Surface, now: Surface) returns (found: set<Breaking>)
    ensures forall x :: x in found <==> (x.RemovedTarget? || x.RemovedHeader? || x.RemovedType?) && Breaks(x, was, now)
  {
    var targets := CompareLists(was.targets, now.targets);
    var headers, types := CompareHeaders(was.headers, now.headers);
    found := (set n | n in targets :: RemovedTarget(n)) + (set n | n in headers :: RemovedHeader(n))
      + (set t | t in types :: RemovedType(t.0, t.1));
    forall x: Breaking | x.RemovedType?
      ensures x in found <==> Breaks(x, was, now)
    {
      assert x in found <==> (x.path, x.name) in types;
    }
  }

  method CompareConfiguration(was: Surface, now: Surface) returns (found: set<Breaking>)
    ensures forall x :: x in found <==>
              && (x.RemovedProperty? || x.ChangedProperty? || x.RemovedPattern? || x.ChangedPattern? || x.NewRequired?)
              && Breaks(x, was, now)
  {
    hide ConstraintsBreaking;
    var properties, changed := CompareDefinitions(was.properties, now.properties);
    var patterns, altered := CompareDefinitions(was.patterns, now.patterns);
    var required := now.required - was.required;
    found := (set n | n in properties :: RemovedProperty(n)) + (set n | n in changed :: ChangedProperty(n))
      + (set n | n in patterns :: RemovedPattern(n)) + (set n | n in altered :: ChangedPattern(n))
      + (set n | n in required :: NewRequired(n));
  }

  method CompareServices(was: Surface, now: Surface) returns (found: set<Breaking>)
    ensures forall x :: x in found <==>
              (x.RemovedOperation? || x.RemovedChannel? || x.ChangedAddress?) && Breaks(x, was, now)
  {
    var operations := CompareLists(was.operations, now.operations);
    var channels, moved := CompareChannels(was.channels, now.channels);
    found := (set n | n in operations :: RemovedOperation(n))
      + (set n | n in channels :: RemovedChannel(n)) + (set n | n in moved :: ChangedAddress(n));
  }

  /** All breaking changes. */
  method Changes(was: Surface, now: Surface) returns (breaking: set<Breaking>)
    ensures forall x :: x in breaking <==> Breaks(x, was, now)
  {
    hide Breaks;
    var plugin := ComparePlugin(was, now);
    var library := CompareLibrary(was, now);
    var configuration := CompareConfiguration(was, now);
    var services := CompareServices(was, now);
    breaking := plugin + library + configuration + services;
  }

  /** No error: nothing breaks, or the major version is new. */
  ghost predicate Compatible(was: Surface, now: Surface) {
    Versioned(was) && Versioned(now) && (NoBreak(was, now) || Major(now) > Major(was))
  }

  /** The errors of a comparison; none is returned for a version that is not one. */
  method Compare(was: Surface, now: Surface) returns (errors: Option<set<Breaking>>)
    ensures errors.Some? <==> Versioned(was) && Versioned(now)
    ensures errors == Some({}) <==> Compatible(was, now)
    ensures errors.Some? && errors.value != {} ==> forall x :: x in errors.value <==> Breaks(x, was, now)
  {
    if !Versioned(was) || !Versioned(now) {
      return None;
    }
    var breaking := Changes(was, now);
    if breaking != {} && Major(now) <= Major(was) {
      return Some(breaking);
    }
    assert breaking == {} ==> NoBreak(was, now);
    return Some({});
  }

  lemma CompatibleWithItself(s: Surface)
    requires Versioned(s)
    ensures Compatible(s, s)
  {
    forall x
      ensures !Breaks(x, s, s)
    {
    }
  }

  lemma VersionsDoNotBreak(s: Surface, version: string)
    ensures NoBreak(s, s.(runtimeVersion := version))
  {
  }

  function Offering(version: string, targets: seq<string>): Surface {
    Surface(version, None, targets, map[], map[], map[], {}, [], map[])
  }

  predicate IsVersion(v: string) {
    VersionTuple(v).Some?
  }

  function MajorOf(v: string): nat
    requires IsVersion(v)
  {
    VersionTuple(v).value.0
  }

  /** Surfaces of three versions pass the absence of errors on. */
  ghost predicate Composes(x: string, y: string, z: string) {
    forall a: Surface, b: Surface, c: Surface | a.runtimeVersion == x && b.runtimeVersion == y && c.runtimeVersion == z
                     && Compatible(a, b) && Compatible(b, c) :: Compatible(a, c)
  }

  /** The major numbers along which it is passed on: the last is new, or none is higher than
      the one before it. */
  predicate Passes(x: nat, y: nat, z: nat) {
    z > x || z <= y <= x
  }

  lemma CompatibilityComposes(a: Surface, b: Surface, c: Surface)
    requires Compatible(a, b) && Compatible(b, c) && Passes(Major(a), Major(b), Major(c))
    ensures Compatible(a, c)
  {
    if NoBreak(a, b) && NoBreak(b, c) {
      NoBreakComposes(a, b, c);
    }
  }

  /** What is removed under a higher major number is missing under the first one's, and
      neither step is an error: the removal is in the first step when the number rises
      there, and else in the second. */
  lemma RemovalIsHidden(x: string, y: string, z: string, target: string)
    requires IsVersion(x) && IsVersion(y) && IsVersion(z) && !Passes(MajorOf(x), MajorOf(y), MajorOf(z))
    ensures !Composes(x, y, z)
  {
    hide VersionTuple;
    var a, c := Offering(x, [target]), Offering(z, []);
    var b := Offering(y, if MajorOf(y) > MajorOf(x) then [] else [target]);
    VersionsDoNotBreak(a, y);
    VersionsDoNotBreak(c, y);
    VersionsDoNotBreak(b, z);
    assert Breaks(RemovedTarget(target), a, c);
    assert Compatible(a, b) && Compatible(b, c) && !Compatible(a, c);
  }

  /** "No error" composes for all surfaces of three versions exactly along such numbers. */
  lemma ComposesExactly(x: string, y: string, z: string)
    requires IsVersion(x) && IsVersion(y) && IsVersion(z)
    ensures Composes(x, y, z) <==> Passes(MajorOf(x), MajorOf(y), MajorOf(z))
  {
    if Passes(MajorOf(x), MajorOf(y), MajorOf(z)) {
      forall a: Surface, b: Surface, c: Surface | a.runtimeVersion == x && b.runtimeVersion == y
                                                  && c.runtimeVersion == z && Compatible(a, b) && Compatible(b, c)
        ensures Compatible(a, c)
      {
        CompatibilityComposes(a, b, c);
      }
    } else {
      RemovalIsHidden(x, y, z, "T");
    }
  }
}
