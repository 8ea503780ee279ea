// What an accepted overlay can and cannot do
// (src/adaptive_quant/config/runtime.py:182-201,212-311).
module SettingsLaws {
  import opened Wrappers
  import opened Settings

  // ------------------------------------------------------------ reading and writing

  // Neither path runs through the other.
  predicate Independent(p: seq<Name>, q: seq<Name>) {
    !(p <= q) && !(q <= p)
  }

  lemma {:induction false} SetThenGet(data: Json, path: Path, value: Json)
    ensures SetPath(data, path, value).Some? <==> GetPath(data, path).Some?
    ensures SetPath(data, path, value).Some? ==> GetPath(SetPath(data, path, value).value, path) == Some(value)
    decreases |path|
  {
    if |path| > 1 && data.Obj? && path[0] in data.fields {
      SetThenGet(data.fields[path[0]], path[1..], value);
    }
  }

  lemma ApartFrom(p: seq<Name>, q: seq<Name>, i: nat)
    requires i < |p| && i < |q| && p[i] != q[i]
    ensures p != q && Independent(p, q)
  {
  }

  lemma TailIndependent(p: Path, q: Path)
    requires Independent(p, q) && p[0] == q[0]
    ensures |p| > 1 && |q| > 1 && Independent(p[1..], q[1..])
  {
    assert p == [p[0]] + p[1..] && q == [q[0]] + q[1..];
  }

  lemma {:induction false} SetKeepsOthers(data: Json, path: Path, value: Json, other: Path)
    requires Independent(path, other) && SetPath(data, path, value).Some?
    ensures GetPath(SetPath(data, path, value).value, other) == GetPath(data, other)
    decreases |path|
  {
    if path[0] == other[0] {
      TailIndependent(path, other);
      SetKeepsOthers(data.fields[path[0]], path[1..], value, other[1..]);
    }
  }

  function SetBoth(data: Json, p: Path, v: Json, q: Path, w: Json): Option<Json> {
    var first := SetPath(data, p, v);
    if first.None? then None else SetPath(first.value, q, w)
  }

  // Writing two independent paths gives the same tree in either order.
  lemma {:induction false} SetsCommute(data: Json, p: Path, v: Json, q: Path, w: Json)
    requires Independent(p, q)
    ensures SetBoth(data, p, v, q, w) == SetBoth(data, q, w, p, v)
    decreases |p|
  {
    SetThenGet(data, p, v);
    SetThenGet(data, q, w);
    if GetPath(data, p).Some? {
      SetKeepsOthers(data, p, v, q);
      SetThenGet(SetPath(data, p, v).value, q, w);
    }
    if GetPath(data, q).Some? {
      SetKeepsOthers(data, q, w, p);
      SetThenGet(SetPath(data, q, w).value, p, v);
    }
    if GetPath(data, p).Some? && GetPath(data, q).Some? {
      if p[0] == q[0] {
        TailIndependent(p, q);
        SetsCommute(data.fields[p[0]], p[1..], v, q[1..], w);
        SetsBelow(data, p, v, q, w);
        SetsBelow(data, q, w, p, v);
      } else {
        SetsApart(data, p, v, q, w);
      }
    }
  }

  // Under a shared first part the two writes happen in the same subtree.
  lemma SetsBelow(data: Json, p: Path, v: Json, q: Path, w: Json)
    requires p[0] == q[0] && |p| > 1 && |q| > 1 && data.Obj? && p[0] in data.fields
    ensures var below := SetBoth(data.fields[p[0]], p[1..], v, q[1..], w);
      SetBoth(data, p, v, q, w) == if below.None? then None else Some(Obj(data.fields[p[0] := below.value]))
  {
    var first := SetPath(data.fields[p[0]], p[1..], v);
    if first.Some? {
      var fields := data.fields[p[0] := first.value];
      assert SetPath(data, p, v) == Some(Obj(fields));
      var second := SetPath(first.value, q[1..], w);
      if second.Some? {
        assert fields[q[0] := second.value] == data.fields[p[0] := second.value];
      }
    }
  }

  lemma SetsApart(data: Json, p: Path, v: Json, q: Path, w: Json)
    requires p[0] != q[0] && GetPath(data, p).Some? && GetPath(data, q).Some?
    ensures SetBoth(data, p, v, q, w) == SetBoth(data, q, w, p, v)
  {
    SetThenGet(data, p, v);
    SetThenGet(data, q, w);
    var a, b := SetPath(data, p, v).value.fields[p[0]], SetPath(data, q, w).value.fields[q[0]];
    assert data.fields[p[0] := a][q[0] := b] == data.fields[q[0] := b][p[0] := a];
  }

  // ------------------------------------------------------------ the editable paths

  predicate Writable(path: Path) {
    path == MODE_PATH || SpecOf(path).Some?
  }

  // No editable path runs through another: the table is free of overlaps.
  lemma WritablesAreIndependent(p: Path, q: Path)
    requires Writable(p) && Writable(q) && p != q
    ensures Independent(p, q)
  {
    if p <= q {
      NoWritableInside(p, q);
    }
    if q <= p {
      NoWritableInside(q, p);
    }
  }

  lemma NoWritableInside(p: Path, q: Path)
    requires Writable(q) && p <= q && p != q
    ensures !Writable(p)
  {
    assert |p| < |q| <= 4 && p == q[..|p|];
    assert |q| > 2 ==> q[1] in {Costs, MonteCarlo, Bootstrap, WalkForward, VolatilityTarget};
    assert |q| > 3 ==> q[2] == HalfSpreadBps;
  }

  // ------------------------------------------------------------ whole overlays

  // Setting every path in turn, whatever the values.
  function SetAll(data: Json, overlay: Overlay): Option<Json>
    decreases |overlay|
  {
    if overlay == [] then Some(data)
    else
      var next := SetPath(data, overlay[0].0, overlay[0].1);
      if next.None? then None else SetAll(next.value, overlay[1..])
  }

  predicate ItemAllowed(item: (Path, Json)) {
    Writable(item.0) && (item.0 == MODE_PATH ==> item.1 == Str(SHADOW) || item.1 == Str(PAPER))
  }

  function ItemRefusal(rules: Rules, reviewed: Json, item: (Path, Json)): Option<Refusal> {
    var spec := SpecOf(item.0);
    if spec.Some? && spec.value.Confirm? then CheckTightening(rules.parse, reviewed, item.0, spec.value.lower, item.1)
      else None
  }

  lemma {:induction false} AllowedIff(overlay: Overlay)
    ensures OverlayRefusal(overlay).None? <==> forall i :: 0 <= i < |overlay| ==> ItemAllowed(overlay[i])
    decreases |overlay|
  {
    if overlay != [] {
      AllowedIff(overlay[1..]);
      assert SpecOf(MODE_PATH).None?;
      assert forall i :: 1 <= i < |overlay| ==> overlay[i] == overlay[1..][i - 1];
      assert forall i :: 0 <= i < |overlay[1..]| ==> overlay[1..][i] == overlay[i + 1];
    }
  }

  // Applying an overlay succeeds exactly when every item passes on its own and every path
  // exists, and then it is SetAll.
  lemma {:induction false} AppliesIff(rules: Rules, reviewed: Json, merged: Json, overlay: Overlay)
    ensures ApplyOverlay(rules, reviewed, merged, overlay).Success?
       <==> SetAll(merged, overlay).Some? && forall i :: 0 <= i < |overlay| ==>
         ItemRefusal(rules, reviewed, overlay[i]).None?
    ensures ApplyOverlay(rules, reviewed, merged, overlay).Success? ==>
      SetAll(merged, overlay) == Some(ApplyOverlay(rules, reviewed, merged, overlay).value)
    decreases |overlay|
  {
    if overlay != [] {
      hide CheckTightening;
      var next := SetPath(merged, overlay[0].0, overlay[0].1);
      if ItemRefusal(rules, reviewed, overlay[0]).None? && next.Some? {
        AppliesIff(rules, reviewed, next.value, overlay[1..]);
        assert forall i :: 1 <= i < |overlay| ==> overlay[i] == overlay[1..][i - 1];
        assert forall i :: 0 <= i < |overlay[1..]| ==> overlay[1..][i] == overlay[i + 1];
      }
    }
  }

  predicate Writables(overlay: Overlay) {
    Distinct(overlay) && forall i :: 0 <= i < |overlay| ==> Writable(overlay[i].0)
  }

  lemma SetFirst(data: Json, item: (Path, Json), rest: Overlay)
    ensures SetAll(data, [item] + rest)
      == var next := SetPath(data, item.0, item.1); if next.None? then None else SetAll(next.value, rest)
  {
    assert ([item] + rest)[1..] == rest;
  }

  lemma SwapFirst(data: Json, x: (Path, Json), y: (Path, Json), rest: Overlay)
    requires Independent(x.0, y.0)
    ensures SetAll(data, [x] + ([y] + rest)) == SetAll(data, [y] + ([x] + rest))
  {
    SetsCommute(data, x.0, x.1, y.0, y.1);
    SetFirst(data, x, [y] + rest);
    SetFirst(data, y, [x] + rest);
    var first, second := SetPath(data, x.0, x.1), SetPath(data, y.0, y.1);
    if first.Some? {
      SetFirst(first.value, y, rest);
    }
    if second.Some? {
      SetFirst(second.value, x, rest);
    }
    hide SetAll, SetPath;
  }

  // An item can be moved to the front.
  lemma {:induction false} MoveToFront(data: Json, overlay: Overlay, k: nat)
    requires Writables(overlay) && k < |overlay|
    ensures SetAll(data, overlay) == SetAll(data, [overlay[k]] + (overlay[..k] + overlay[k + 1..]))
    decreases |overlay|
  {
    if k == 0 {
      assert [overlay[0]] + (overlay[..0] + overlay[1..]) == overlay;
    } else {
      var x, y, tail := overlay[0], overlay[k], overlay[1..];
      var mid := overlay[1..k] + overlay[k + 1..];
      WritablesAreIndependent(x.0, y.0);
      assert overlay == [x] + tail && tail[k - 1] == y;
      assert tail[..k - 1] + tail[k..] == mid;
      assert overlay[..k] + overlay[k + 1..] == [x] + mid;
      assert Writables(tail);
      hide SetAll, SetPath, Writables, Independent;
      SetFirst(data, x, tail);
      SetFirst(data, x, [y] + mid);
      var next := SetPath(data, x.0, x.1);
      if next.Some? {
        MoveToFront(next.value, tail, k - 1);
      }
      SwapFirst(data, x, y, mid);
    }
  }

  lemma RemoveOne<T>(a: seq<T>, b: seq<T>, k: nat)
    requires a != [] && k < |b| && b[k] == a[0] && multiset(a) == multiset(b)
    ensures multiset(b[..k] + b[k + 1..]) == multiset(a[1..])
  {
    assert a == [a[0]] + a[1..] && b == b[..k] + [b[k]] + b[k + 1..];
    assert multiset(b[..k] + b[k + 1..]) == multiset(b) - multiset{a[0]};
    assert multiset(a[1..]) == multiset(a) - multiset{a[0]};
  }

  lemma RestWritables(b: Overlay, k: nat)
    requires Writables(b) && k < |b|
    ensures Writables(b[..k] + b[k + 1..])
  {
    var rest := b[..k] + b[k + 1..];
    assert forall i :: 0 <= i < |rest| ==> rest[i] == b[if i < k then i else i + 1];
  }

  // The order of the items does not matter.
  lemma {:induction false} SetAllPermutes(data: Json, a: Overlay, b: Overlay)
    requires Writables(a) && Writables(b) && multiset(a) == multiset(b)
    ensures SetAll(data, a) == SetAll(data, b)
    decreases |a|
  {
    if a == [] {
      assert |multiset(a)| == |multiset(b)|;
    } else {
      assert a[0] in multiset(b);
      var k :| 0 <= k < |b| && b[k] == a[0];
      MoveToFront(data, b, k);
      var rest := b[..k] + b[k + 1..];
      hide Writables;
      RemoveOne(a, b, k);
      RestWritables(b, k);
      var next := SetPath(data, a[0].0, a[0].1);
      if next.Some? {
        SetAllPermutes(next.value, a[1..], rest);
      }
      assert ([a[0]] + rest)[1..] == rest;
    }
  }

  // The value an overlay gives a path.
  function Lookup(overlay: Overlay, path: Path): Option<Json> {
    if overlay == [] then None
    else if overlay[0].0 == path then Some(overlay[0].1)
    else Lookup(overlay[1..], path)
  }

  // Every path the editable ones do not run through or lie on keeps its value, and each
  // editable one has the overlay's value if there is one.
  lemma {:induction false} ValueAfter(data: Json, overlay: Overlay, path: Path)
    requires Writables(overlay) && SetAll(data, overlay).Some?
    requires forall i :: 0 <= i < |overlay| ==> overlay[i].0 == path || Independent(overlay[i].0, path)
    ensures GetPath(SetAll(data, overlay).value, path)
      == if Lookup(overlay, path).Some? then Lookup(overlay, path) else GetPath(data, path)
    decreases |overlay|
  {
    if overlay != [] {
      var (p, v) := overlay[0];
      var next := SetPath(data, p, v).value;
      SetThenGet(data, p, v);
      ValueAfter(next, overlay[1..], path);
      if p == path {
        LookupElsewhere(overlay[1..], path);
      } else {
        SetKeepsOthers(data, p, v, path);
      }
    }
  }

  lemma {:induction false} LookupElsewhere(overlay: Overlay, path: Path)
    requires forall i :: 0 <= i < |overlay| ==> overlay[i].0 != path
    ensures Lookup(overlay, path).None?
    decreases |overlay|
  {
    if overlay != [] {
      LookupElsewhere(overlay[1..], path);
    }
  }

  lemma {:induction false} LookupFinds(overlay: Overlay, path: Path)
    requires Lookup(overlay, path).Some?
    ensures exists i :: 0 <= i < |overlay| && overlay[i] == (path, Lookup(overlay, path).value)
    decreases |overlay|
  {
    if overlay[0].0 == path {
      assert overlay[0] == (path, Lookup(overlay, path).value);
    } else {
      LookupFinds(overlay[1..], path);
      var i :| 0 <= i < |overlay[1..]| && overlay[1..][i] == (path, Lookup(overlay[1..], path).value);
      assert overlay[i + 1] == (path, Lookup(overlay, path).value);
    }
  }

  // ------------------------------------------------------------ what is promised

  // The same items in another order give the same configuration, or are refused too.
  lemma OrderIsIrrelevant(rules: Rules, base: Loaded, a: Overlay, b: Overlay, overrides: map<string, Entry>)
    requires Distinct(a) && Distinct(b) && multiset(a) == multiset(b)
    ensures ApplyRuntime(rules, base, a, overrides).Success? <==> ApplyRuntime(rules, base, b, overrides).Success?
    ensures ApplyRuntime(rules, base, a, overrides).Success? ==>
      ApplyRuntime(rules, base, a, overrides) == ApplyRuntime(rules, base, b, overrides)
  {
    assert a == [] <==> b == [] by {
      assert |a| == |multiset(a)| == |multiset(b)| == |b|;
    }
    RefusalsAgree(a, b);
    if OverlayRefusal(a).None? {
      OverlaysAgree(rules, base.settings, a, b);
    }
    hide ApplyOverlay, OverlayRefusal, OverriddenAll, IsLive, Distinct;
  }

  lemma RefusalsAgree(a: Overlay, b: Overlay)
    requires multiset(a) == multiset(b)
    ensures OverlayRefusal(a).None? <==> OverlayRefusal(b).None?
  {
    SameItems(a, b);
    SameItems(b, a);
    AllowedIff(a);
    AllowedIff(b);
    hide ItemAllowed, OverlayRefusal;
  }

  lemma OverlaysAgree(rules: Rules, reviewed: Json, a: Overlay, b: Overlay)
    requires Distinct(a) && Distinct(b) && multiset(a) == multiset(b) && OverlayRefusal(a).None?
    ensures ApplyOverlay(rules, reviewed, reviewed, a).Success? <==> ApplyOverlay(rules, reviewed, reviewed, b).Success?
    ensures ApplyOverlay(rules, reviewed, reviewed, a).Success? ==>
      ApplyOverlay(rules, reviewed, reviewed, a) == ApplyOverlay(rules, reviewed, reviewed, b)
  {
    RefusalsAgree(a, b);
    AllowedIff(a);
    AllowedIff(b);
    SetAllPermutes(reviewed, a, b);
    SameItems(a, b);
    SameItems(b, a);
    AppliesIff(rules, reviewed, reviewed, a);
    AppliesIff(rules, reviewed, reviewed, b);
    hide ApplyOverlay, OverlayRefusal, SetAll, ItemRefusal, ItemAllowed, Distinct;
  }

  lemma SameItems(a: Overlay, b: Overlay)
    requires multiset(a) == multiset(b)
    ensures forall i :: 0 <= i < |a| ==> exists j :: 0 <= j < |b| && b[j] == a[i]
  {
    forall i | 0 <= i < |a| ensures exists j :: 0 <= j < |b| && b[j] == a[i] {
      assert a[i] in multiset(a);
      assert a[i] in multiset(b);
    }
  }

  // The settings an accepted configuration has, path by path: the overlay's value for the
  // paths it names, the reviewed value for every other editable path, and for everything
  // that is not editable.
  lemma EffectiveValue(rules: Rules, base: Loaded, overlay: Overlay, overrides: map<string, Entry>, path: Path)
    requires Distinct(overlay) && ApplyRuntime(rules, base, overlay, overrides).Success?
    requires forall p: Path :: Writable(p) ==> p == path || Independent(p, path)
    ensures GetPath(ApplyRuntime(rules, base, overlay, overrides).value.settings, path)
      == if Lookup(overlay, path).Some? then Lookup(overlay, path) else GetPath(base.settings, path)
  {
    AllowedIff(overlay);
    AppliesIff(rules, base.settings, base.settings, overlay);
    hide ApplyOverlay, OverlayRefusal, SetAll, OverriddenAll, IsLive;
    if !(overlay == [] && overrides == map[]) {
      ValueAfter(base.settings, overlay, path);
    }
  }

  // What the code compares: the same value, or one that is not looser.
  predicate NotLooser(parse: string -> Option<Number>, lower: bool, value: Json, reviewed: Json) {
    value == reviewed
    || (ToFloat(parse, value).Some? && ToFloat(parse, reviewed).Some?
        && !Looser(lower, ToFloat(parse, value).value, ToFloat(parse, reviewed).value))
  }

  // Every risk limit of an accepted configuration, overlaid or not, is not looser than the
  // reviewed one.
  lemma LimitsNeverLoosen(rules: Rules, base: Loaded, overlay: Overlay, overrides: map<string, Entry>, path: Path)
    requires Distinct(overlay) && ApplyRuntime(rules, base, overlay, overrides).Success?
    requires SpecOf(path).Some? && SpecOf(path).value.Confirm? && GetPath(base.settings, path).Some?
    ensures var after := GetPath(ApplyRuntime(rules, base, overlay, overrides).value.settings, path);
      && after == (if Lookup(overlay, path).Some? then Lookup(overlay, path) else GetPath(base.settings, path))
      && NotLooser(rules.parse, SpecOf(path).value.lower, after.value, GetPath(base.settings, path).value)
      && (Lookup(overlay, path).Some? ==> ToFloat(rules.parse, after.value).Some?)
  {
    forall p: Path | Writable(p) ensures p == path || Independent(p, path) {
      if p != path {
        WritablesAreIndependent(p, path);
      }
    }
    EffectiveValue(rules, base, overlay, overrides, path);
    if Lookup(overlay, path).Some? {
      LookupFinds(overlay, path);
      AllowedIff(overlay);
      AppliesIff(rules, base.settings, base.settings, overlay);
      hide ApplyOverlay, OverlayRefusal, SetAll, OverriddenAll, IsLive, GetPath, SpecOf;
    }
  }

  // The comparison of floats: nothing is at most, or at least, "not a number".
  predicate AtMost(a: Number, b: Number) {
    Less(a, b) || (a == b && a != NotANumber)
  }

  predicate IsLimit(parse: string -> Option<Number>, value: Json) {
    ToFloat(parse, value).Some? && ToFloat(parse, value).value != NotANumber
  }

  // At least as tight as the reviewed limit: both are numbers, and the value is on the
  // tighter side of the reviewed one or equal to it.
  predicate AtLeastAsTight(parse: string -> Option<Number>, lower: bool, value: Json, reviewed: Json) {
    && ToFloat(parse, value).Some? && ToFloat(parse, reviewed).Some?
    && var v, r := ToFloat(parse, value).value, ToFloat(parse, reviewed).value;
       if lower then AtMost(v, r) else AtMost(r, v)
  }

  predicate ReadsAsNaN(parse: string -> Option<Number>, value: Option<Json>) {
    value.Some? && ToFloat(parse, value.value) == Some(NotANumber)
  }

  lemma NumbersAreOrdered(a: Number, b: Number)
    requires a != NotANumber && b != NotANumber
    ensures AtMost(a, b) <==> !Less(b, a)
  {
  }

  // A risk limit of an accepted configuration is at least as tight as the reviewed one if
  // and only if the overlay does not give it a value that reads as "not a number".
  lemma LimitsOnlyTighten(rules: Rules, base: Loaded, overlay: Overlay, overrides: map<string, Entry>, path: Path)
    requires Distinct(overlay) && ApplyRuntime(rules, base, overlay, overrides).Success?
    requires SpecOf(path).Some? && SpecOf(path).value.Confirm?
    requires GetPath(base.settings, path).Some? && IsLimit(rules.parse, GetPath(base.settings, path).value)
    ensures var after := GetPath(ApplyRuntime(rules, base, overlay, overrides).value.settings, path);
      && after.Some?
      && (AtLeastAsTight(rules.parse, SpecOf(path).value.lower, after.value, GetPath(base.settings, path).value)
          <==> !ReadsAsNaN(rules.parse, Lookup(overlay, path)))
  {
    LimitsNeverLoosen(rules, base, overlay, overrides, path);
    var reviewed := GetPath(base.settings, path).value;
    var after := GetPath(ApplyRuntime(rules, base, overlay, overrides).value.settings, path).value;
    hide ApplyRuntime, GetPath, SpecOf, Lookup, Less;
    var v, r := ToFloat(rules.parse, after).value, ToFloat(rules.parse, reviewed).value;
    if v != NotANumber {
      NumbersAreOrdered(v, r);
      NumbersAreOrdered(r, v);
    } else {
      assert !AtMost(v, r) && !AtMost(r, v) by {
        NaNIsIncomparable(r);
      }
    }
  }

  lemma NaNIsIncomparable(a: Number)
    ensures !AtMost(NotANumber, a) && !AtMost(a, NotANumber)
  {
  }

  // For limits that are finite numbers the comparison is the plain one.
  lemma TightMeans(parse: string -> Option<Number>, lower: bool, value: Json, reviewed: Json, x: real, y: real)
    requires ToFloat(parse, value) == Some(Finite(x)) && ToFloat(parse, reviewed) == Some(Finite(y))
    ensures AtLeastAsTight(parse, lower, value, reviewed) <==> if lower then x <= y else x >= y
  {
  }

  lemma NoOverrides(strategies: seq<Strategy>)
    ensures OverriddenAll(strategies, map[]) == strategies
  {
  }

  // The exception is real: over any reviewed files, a value that reads as "not a number"
  // passes the tightening check of every risk limit, in either direction, so unless the
  // schema refuses it the limit is replaced by one nothing compares with.
  lemma NaNReplacesALimit(rules: Rules, base: Loaded, path: Path, value: Json)
    requires SpecOf(path).Some? && SpecOf(path).value.Confirm? && !IsLive(base.settings)
    requires GetPath(base.settings, path).Some? && IsLimit(rules.parse, GetPath(base.settings, path).value)
    requires ReadsAsNaN(rules.parse, Some(value))
    ensures SetPath(base.settings, path, value).Some?
    ensures var loaded := Loaded(SetPath(base.settings, path, value).value, base.strategies);
      && ApplyRuntime(rules, base, [(path, value)], map[])
        == (if rules.valid(loaded) then Success(loaded) else Failure(SchemaRefused))
      && GetPath(loaded.settings, path) == Some(value)
      && !AtLeastAsTight(rules.parse, SpecOf(path).value.lower, value, GetPath(base.settings, path).value)
  {
    var overlay: Overlay := [(path, value)];
    SetThenGet(base.settings, path, value);
    NoOverrides(base.strategies);
    AllowedIff(overlay);
    AppliesIff(rules, base.settings, base.settings, overlay);
    NeverLive(rules, base, overlay, map[]);
    NaNIsIncomparable(ToFloat(rules.parse, GetPath(base.settings, path).value).value);
    assert SetAll(base.settings, overlay) == SetPath(base.settings, path, value);
    assert ItemAllowed(overlay[0]) && ItemRefusal(rules, base.settings, overlay[0]).None?;
    hide ApplyOverlay, SetAll, SetPath, GetPath, IsLive, SpecOf, OverriddenAll, OverlayRefusal, CheckTightening, AtMost;
  }

  function ReadNan(text: string): Option<Number> {
    if text == "nan" then Some(NotANumber) else None
  }

  const NAN_RULES := Rules(ReadNan, (loaded: Loaded) => true)
  const LIMITED := Loaded(Obj(map[Risk := Obj(map[MaxNetUnderlyingExposure := Num(Finite(1.0))])]), [])

  // In the smallest case: "nan" for the net exposure limit of 1.0.
  lemma NanTextReplacesALimit()
    ensures var path: Path := [Risk, MaxNetUnderlyingExposure];
      var r := ApplyRuntime(NAN_RULES, LIMITED, [(path, Str("nan"))], map[]);
      && r.Success? && GetPath(r.value.settings, path) == Some(Str("nan"))
      && !AtLeastAsTight(ReadNan, true, Str("nan"), Num(Finite(1.0)))
  {
    var path: Path := [Risk, MaxNetUnderlyingExposure];
    assert GetPath(LIMITED.settings, path) == Some(Num(Finite(1.0)));
    NaNReplacesALimit(NAN_RULES, LIMITED, path, Str("nan"));
  }

  // A configuration with an overlay is never live, whatever the reviewed settings; and
  // with reviewed settings that are not live the last check never has to refuse one,
  // because no editable path can get there.
  lemma NeverLive(rules: Rules, base: Loaded, overlay: Overlay, overrides: map<string, Entry>)
    requires Distinct(overlay)
    ensures var r := ApplyRuntime(rules, base, overlay, overrides);
      && (r.Success? && !(overlay == [] && overrides == map[]) ==> !IsLive(r.value.settings))
      && (!IsLive(base.settings) ==> r != Failure(LiveRefused) && (r.Success? ==> !IsLive(r.value.settings)))
  {
    if !IsLive(base.settings) && OverlayRefusal(overlay).None?
      && ApplyOverlay(rules, base.settings, base.settings, overlay).Success?
    {
      AllowedIff(overlay);
      AppliesIff(rules, base.settings, base.settings, overlay);
      assert Writables(overlay);
      ModeAfter(base.settings, overlay);
      LockAfter(base.settings, overlay);
    }
    ApplyOverlayRefusals(rules, base.settings, base.settings, overlay);
    hide ApplyOverlay, SetAll, OverriddenAll, SpecOf, GetPath;
    OverlayRefusals(overlay);
  }

  lemma {:induction false} OverlayRefusals(overlay: Overlay)
    ensures OverlayRefusal(overlay) != Some(LiveRefused) && OverlayRefusal(overlay) != Some(SchemaRefused)
    decreases |overlay|
  {
    if overlay != [] {
      OverlayRefusals(overlay[1..]);
    }
  }

  lemma {:induction false} ApplyOverlayRefusals(rules: Rules, reviewed: Json, merged: Json, overlay: Overlay)
    ensures ApplyOverlay(rules, reviewed, merged, overlay) != Failure(LiveRefused)
    ensures ApplyOverlay(rules, reviewed, merged, overlay) != Failure(SchemaRefused)
    decreases |overlay|
  {
    if overlay != [] {
      var next := SetPath(merged, overlay[0].0, overlay[0].1);
      if next.Some? {
        ApplyOverlayRefusals(rules, reviewed, next.value, overlay[1..]);
      }
    }
  }

  lemma ModeAfter(data: Json, overlay: Overlay)
    requires Writables(overlay) && SetAll(data, overlay).Some?
    requires forall i :: 0 <= i < |overlay| ==> ItemAllowed(overlay[i])
    ensures var after := GetPath(SetAll(data, overlay).value, MODE_PATH);
      after == GetPath(data, MODE_PATH) || after == Some(Str(SHADOW)) || after == Some(Str(PAPER))
  {
    forall i | 0 <= i < |overlay| ensures overlay[i].0 == MODE_PATH || Independent(overlay[i].0, MODE_PATH) {
      if overlay[i].0 != MODE_PATH {
        WritablesAreIndependent(overlay[i].0, MODE_PATH);
      }
    }
    ValueAfter(data, overlay, MODE_PATH);
    if Lookup(overlay, MODE_PATH).Some? {
      LookupFinds(overlay, MODE_PATH);
    }
  }

  lemma LockAfter(data: Json, overlay: Overlay)
    requires Writables(overlay) && SetAll(data, overlay).Some?
    ensures GetPath(SetAll(data, overlay).value, [Trading, LiveTrading, Named("enabled")])
         == GetPath(data, [Trading, LiveTrading, Named("enabled")])
  {
    var path: Path := [Trading, LiveTrading, Named("enabled")];
    forall i | 0 <= i < |overlay| ensures overlay[i].0 != path && Independent(overlay[i].0, path) {
      assert Writable(overlay[i].0);
      ApartFrom(overlay[i].0, path, if overlay[i].0 == MODE_PATH then 1 else 0);
    }
    LookupElsewhere(overlay, path);
    ValueAfter(data, overlay, path);
  }

  // Strategy overrides keep every strategy, and grant no lifecycle the reviewed files keep
  // to themselves: "live_approved" is there only where they say so.
  lemma LifecyclesStayReviewed(rules: Rules, base: Loaded, overlay: Overlay, overrides: map<string, Entry>, i: nat)
    requires ApplyRuntime(rules, base, overlay, overrides).Success? && i < |base.strategies|
    ensures var after := ApplyRuntime(rules, base, overlay, overrides).value.strategies;
      && |after| == |base.strategies|
      && after[i].id == base.strategies[i].id
      && (after[i].lifecycle == base.strategies[i].lifecycle || after[i].lifecycle in UI_LIFECYCLES)
  {
    hide ApplyOverlay, OverlayRefusal, IsLive;
  }
}
