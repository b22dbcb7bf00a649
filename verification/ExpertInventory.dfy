/** Which expert tensors a checkpoint has, and whether they are complete. */
module ExpertInventory {
  import opened Wrappers
  import opened ExpertNames

  datatype Key = Key(layer: nat, expert: nat, projection: string)

  type Fields = map<Key, set<string>>

  const REQUIRED := {"trellis", "suh", "svh", "mcg"}

  function KeyOf(name: string): Key
    requires Parse(name).Some?
  {
    var e := Parse(name).value;
    Key(Value(e.layer), Value(e.expert), e.projection)
  }

  /** The name is that of this field of this expert. */
  predicate Names(name: string, k: Key, field: string) {
    Parse(name).Some? && KeyOf(name) == k && Parse(name).value.field == field
  }

  predicate Listed(names: seq<string>, k: Key, field: string) {
    exists i :: 0 <= i < |names| && Names(names[i], k, field)
  }

  // --- Complete records ----------------------------------------------------------------------------------------------

  /** Layers lo to hi, each with experts 0 to n - 1, each with the three projections, each with the four fields. */
  predicate InGrid(lo: nat, hi: nat, n: nat, k: Key, field: string) {
    lo <= k.layer <= hi && k.expert < n && k.projection in PROJECTIONS && field in REQUIRED
  }

  ghost predicate IsGrid(names: seq<string>, lo: nat, hi: nat, n: nat) {
    lo <= hi && n > 0 && forall k, field :: Listed(names, k, field) <==> InGrid(lo, hi, n, k, field)
  }

  ghost predicate Complete(names: seq<string>) {
    exists lo, hi, n :: IsGrid(names, lo, hi, n)
  }

  // --- Collecting ----------------------------------------------------------------------------------------------------

  ghost predicate Collected(names: seq<string>, fields: Fields) {
    && (forall k, field :: Listed(names, k, field) <==> k in fields && field in fields[k])
    && forall k :: k in fields ==> fields[k] != {}
  }

  lemma ListedMore(names: seq<string>, name: string, k: Key, field: string)
    ensures Listed(names + [name], k, field) <==> Listed(names, k, field) || Names(name, k, field)
  {
    var all := names + [name];
    if Listed(names, k, field) {
      var i :| 0 <= i < |names| && Names(names[i], k, field);
      assert Names(all[i], k, field);
    }
    assert all[|names|] == name;
  }

  function Noted(fields: Fields, name: string): Fields {
    if Parse(name).None? then fields
    else
      var k := KeyOf(name);
      fields[k := (if k in fields then fields[k] else {}) + {Parse(name).value.field}]
  }

  lemma CollectedMore(names: seq<string>, name: string, fields: Fields)
    requires Collected(names, fields)
    ensures Collected(names + [name], Noted(fields, name))
  {
    var fields' := Noted(fields, name);
    forall k, field
      ensures Listed(names + [name], k, field) <==> k in fields' && field in fields'[k]
    {
      ListedMore(names, name, k, field);
    }
  }

  method Collect(names: seq<string>) returns (fields: Fields)
    ensures Collected(names, fields)
  {
    fields := map[];
    for i := 0 to |names|
      invariant Collected(names[..i], fields)
    {
      var name := names[i];
      assert names[..i + 1] == names[..i] + [name];
      CollectedMore(names[..i], name, fields);
      fields := Noted(fields, name);
    }
    assert names[..|names|] == names;
  }

  // --- Checking ------------------------------------------------------------------------------------------------------

  function Layers(fields: Fields): set<nat> {
    set k | k in fields :: k.layer
  }

  function ExpertsOf(fields: Fields, layer: nat): set<nat> {
    set k | k in fields && k.layer == layer :: k.expert
  }

  function ProjectionsOf(fields: Fields, layer: nat, expert: nat): set<string> {
    set k | k in fields && k.layer == layer && k.expert == expert :: k.projection
  }

  function Upto(n: nat): (r: set<nat>)
    ensures |r| == n && forall i :: i in r <==> 0 <= i < n
  {
    if n == 0 then {} else Upto(n - 1) + {n - 1}
  }

  method Bounds(s: set<nat>) returns (lo: nat, hi: nat)
    requires s != {}
    ensures lo in s && hi in s && forall i :: i in s ==> lo <= i <= hi
  {
    lo :| lo in s;
    hi := lo;
    var rest := s;
    while rest != {}
      invariant rest <= s && lo in s && hi in s && forall i :: i in s && i !in rest ==> lo <= i <= hi
      decreases rest
    {
      var i :| i in rest;
      lo, hi, rest := if i < lo then i else lo, if i > hi then i else hi, rest - {i};
    }
  }

  /** The fields of a complete grid, as the map shows them. */
  ghost predicate GridMap(fields: Fields, lo: nat, hi: nat, n: nat) {
    && lo <= hi && n > 0
    && (forall k :: k in fields <==> lo <= k.layer <= hi && k.expert < n && k.projection in PROJECTIONS)
    && forall k :: k in fields ==> fields[k] == REQUIRED
  }

  lemma GridHasMap(names: seq<string>, fields: Fields, lo: nat, hi: nat, n: nat)
    requires Collected(names, fields) && IsGrid(names, lo, hi, n)
    ensures GridMap(fields, lo, hi, n)
  {
    forall k | k in fields
      ensures lo <= k.layer <= hi && k.expert < n && k.projection in PROJECTIONS && fields[k] == REQUIRED
    {
      var field :| field in fields[k];
      assert Listed(names, k, field);
      forall f
        ensures f in fields[k] <==> f in REQUIRED
      {
        assert Listed(names, k, f) <==> InGrid(lo, hi, n, k, f);
      }
    }
    forall k: Key | lo <= k.layer <= hi && k.expert < n && k.projection in PROJECTIONS
      ensures k in fields
    {
      assert InGrid(lo, hi, n, k, "mcg");
      assert Listed(names, k, "mcg");
    }
  }

  lemma MapIff(names: seq<string>, fields: Fields, lo: nat, hi: nat, n: nat)
    requires Collected(names, fields)
    ensures GridMap(fields, lo, hi, n) <==> IsGrid(names, lo, hi, n)
  {
    if IsGrid(names, lo, hi, n) {
      GridHasMap(names, fields, lo, hi, n);
    }
  }

  /** What a layer must look like. */
  ghost predicate LayerOk(fields: Fields, layer: nat, n: nat) {
    && ExpertsOf(fields, layer) == Upto(n)
    && forall e :: e in ExpertsOf(fields, layer) ==> ProjectionsOf(fields, layer, e) == PROJECTIONS
  }

  method CheckLayer(fields: Fields, layer: nat, n: nat) returns (ok: bool)
    ensures ok <==> LayerOk(fields, layer, n)
  {
    var found := ExpertsOf(fields, layer);
    if found != Upto(n) {
      return false;
    }
    for e := 0 to n
      invariant forall x :: 0 <= x < e ==> ProjectionsOf(fields, layer, x) == PROJECTIONS
    {
      if ProjectionsOf(fields, layer, e) != PROJECTIONS {
        assert e in found;
        return false;
      }
    }
    ok := true;
  }

  ghost predicate Checked(fields: Fields, lo: nat, hi: nat, n: nat) {
    && lo <= hi && n > 0 && (forall k :: k in fields ==> fields[k] == REQUIRED)
    && (forall i :: i in Layers(fields) <==> lo <= i <= hi)
    && forall i :: lo <= i <= hi ==> LayerOk(fields, i, n)
  }

  /** The checks, layer by layer, amount to the grid. */
  lemma CheckedIff(fields: Fields, lo: nat, hi: nat, n: nat)
    ensures Checked(fields, lo, hi, n) <==> GridMap(fields, lo, hi, n)
  {
    if Checked(fields, lo, hi, n) {
      CheckedIsGrid(fields, lo, hi, n);
    }
    if GridMap(fields, lo, hi, n) {
      GridIsChecked(fields, lo, hi, n);
    }
  }

  lemma CheckedIsGrid(fields: Fields, lo: nat, hi: nat, n: nat)
    requires Checked(fields, lo, hi, n)
    ensures GridMap(fields, lo, hi, n)
  {
    forall k | k in fields
      ensures lo <= k.layer <= hi && k.expert < n && k.projection in PROJECTIONS
    {
      assert k.layer in Layers(fields);
      assert LayerOk(fields, k.layer, n);
      assert k.expert in ExpertsOf(fields, k.layer);
      assert k.projection in ProjectionsOf(fields, k.layer, k.expert);
    }
    forall k: Key | lo <= k.layer <= hi && k.expert < n && k.projection in PROJECTIONS
      ensures k in fields
    {
      assert LayerOk(fields, k.layer, n);
      assert k.expert in ExpertsOf(fields, k.layer);
      assert k.projection in ProjectionsOf(fields, k.layer, k.expert);
    }
  }

  lemma GridIsChecked(fields: Fields, lo: nat, hi: nat, n: nat)
    requires GridMap(fields, lo, hi, n)
    ensures Checked(fields, lo, hi, n)
  {
    forall i, e | lo <= i <= hi && 0 <= e < n
      ensures e in ExpertsOf(fields, i) && ProjectionsOf(fields, i, e) == PROJECTIONS
    {
      assert Key(i, e, "up_proj") in fields;
      forall p
        ensures p in ProjectionsOf(fields, i, e) <==> p in PROJECTIONS
      {
        assert Key(i, e, p) in fields <==> p in PROJECTIONS;
      }
    }
    forall i | lo <= i <= hi
      ensures i in Layers(fields) && ExpertsOf(fields, i) == Upto(n)
    {
      assert Key(i, 0, "up_proj") in fields;
    }
  }

  /** The checks on the expert records: they pass exactly if the records are complete. */
  method Inspect(names: seq<string>) returns (ok: bool)
    ensures ok <==> Complete(names)
  {
    var fields := Collect(names);
    if fields == map[] {
      Empty(names, fields);
      return false;
    }
    if k :| k in fields && fields[k] != REQUIRED {
      Flawed(names, fields, k);
      return false;
    }
    var k :| k in fields;
    assert k.layer in Layers(fields);
    var lo, hi := Bounds(Layers(fields));
    var n := |ExpertsOf(fields, lo)|;
    ok := CheckLayers(fields, lo, hi, n);
    LayersChecked(fields, lo, hi, n);
    Decided(names, fields, lo, hi, n);
  }

  lemma SomeExpert(fields: Fields, layer: nat)
    requires layer in Layers(fields)
    ensures |ExpertsOf(fields, layer)| > 0
  {
    var k :| k in fields && k.layer == layer;
    assert k.expert in ExpertsOf(fields, layer);
  }

  ghost predicate LayerFine(fields: Fields, layer: nat, n: nat) {
    layer in Layers(fields) && LayerOk(fields, layer, n)
  }

  method CheckLayers(fields: Fields, lo: nat, hi: nat, n: nat) returns (ok: bool)
    requires lo <= hi
    ensures ok <==> forall j :: lo <= j <= hi ==> LayerFine(fields, j, n)
  {
    var layers := Layers(fields);
    for i := lo to hi + 1
      invariant forall j :: lo <= j < i ==> LayerFine(fields, j, n)
    {
      var fine := CheckLayer(fields, i, n);
      if !fine || i !in layers {
        assert !LayerFine(fields, i, n);
        return false;
      }
    }
    ok := true;
  }

  lemma LayersChecked(fields: Fields, lo: nat, hi: nat, n: nat)
    requires lo <= hi && (forall k :: k in fields ==> fields[k] == REQUIRED)
    requires lo in Layers(fields) && forall i :: i in Layers(fields) ==> lo <= i <= hi
    requires n == |ExpertsOf(fields, lo)|
    ensures (forall j :: lo <= j <= hi ==> LayerFine(fields, j, n)) <==> Checked(fields, lo, hi, n)
  {
    SomeExpert(fields, lo);
    if forall j :: lo <= j <= hi ==> LayerFine(fields, j, n) {
      forall i | lo <= i <= hi
        ensures i in Layers(fields) && LayerOk(fields, i, n)
      {
        assert LayerFine(fields, i, n);
      }
    }
  }

  lemma SomethingThere(fields: Fields, lo: nat, hi: nat, n: nat)
    requires GridMap(fields, lo, hi, n)
    ensures fields != map[]
  {
    assert Key(lo, 0, "up_proj") in fields;
  }

  lemma Empty(names: seq<string>, fields: Fields)
    requires Collected(names, fields) && fields == map[]
    ensures !Complete(names)
  {
    forall lo, hi, n
      ensures !IsGrid(names, lo, hi, n)
    {
      MapIff(names, fields, lo, hi, n);
      if GridMap(fields, lo, hi, n) {
        SomethingThere(fields, lo, hi, n);
      }
    }
  }

  lemma Flawed(names: seq<string>, fields: Fields, k: Key)
    requires Collected(names, fields) && k in fields && fields[k] != REQUIRED
    ensures !Complete(names)
  {
    forall lo, hi, n
      ensures !IsGrid(names, lo, hi, n)
    {
      MapIff(names, fields, lo, hi, n);
    }
  }

  /** The bounds and the count found are the only ones that can be right. */
  lemma Decided(names: seq<string>, fields: Fields, lo: nat, hi: nat, n: nat)
    requires Collected(names, fields) && lo in Layers(fields) && hi in Layers(fields)
    requires (forall i :: i in Layers(fields) ==> lo <= i <= hi) && n == |ExpertsOf(fields, lo)|
    ensures Complete(names) <==> Checked(fields, lo, hi, n)
  {
    CheckedIff(fields, lo, hi, n);
    MapIff(names, fields, lo, hi, n);
    if Complete(names) {
      var lo', hi', n' :| IsGrid(names, lo', hi', n');
      MapIff(names, fields, lo', hi', n');
      CheckedIff(fields, lo', hi', n');
      assert lo' in Layers(fields) && hi' in Layers(fields);
      assert LayerOk(fields, lo', n');
    }
  }
}
