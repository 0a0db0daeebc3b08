/**
 * The text layers of the cover-art editor and the pure list operations that
 * the editor's handlers apply to them: appending a default layer, filtering
 * out an id, merging a partial update into the layers with an id, and
 * finding the layer with an id.
 */
module Layers {
  import opened Optional
  import Decimal

  /** A position in percent of the artwork's width and height. */
  datatype Position = Position(x: real, y: real)

  datatype TextLayer = TextLayer(
    id: string,
    text: string,
    position: Position,
    fontSize: int,
    fontFamily: string,
    color: string,
    rotation: int)

  /** `Partial<TextLayer>`: every field may be given or left out. */
  datatype LayerUpdate = LayerUpdate(
    id: Option<string>,
    text: Option<string>,
    position: Option<Position>,
    fontSize: Option<int>,
    fontFamily: Option<string>,
    color: Option<string>,
    rotation: Option<int>)

  /** The single layer the editor starts with. */
  const InitialLayer: TextLayer :=
    TextLayer("1", "My Playlist", Position(50.0, 50.0), 48, "Inter", "#ffffff", 0)

  /** The layer added when the list holds `count` layers: its id is `String(count + 1)`. */
  function NewLayer(count: nat): (l: TextLayer)
    ensures l.id == Decimal.NatString(count + 1)
    ensures l.text == "New Text" && l.position == Position(50.0, 50.0)
    ensures l.fontSize == 32 && l.fontFamily == "Inter" && l.color == "#ffffff" && l.rotation == 0
  {
    TextLayer(Decimal.NatString(count + 1), "New Text", Position(50.0, 50.0), 32, "Inter", "#ffffff", 0)
  }

  /** An update that names no field. */
  const NoChange: LayerUpdate := LayerUpdate(None, None, None, None, None, None, None)

  /** An update that names only the position. */
  function MoveTo(p: Position): LayerUpdate {
    NoChange.(position := Some(p))
  }

  /** `{ ...layer, ...updates }`: the fields named in `u` replace those of `layer`. */
  function Merge(layer: TextLayer, u: LayerUpdate): (r: TextLayer)
    ensures u.id.None? ==> r.id == layer.id
    ensures u.id.Some? ==> r.id == u.id.value
    ensures u.text.None? ==> r.text == layer.text
    ensures u.text.Some? ==> r.text == u.text.value
    ensures u.position.None? ==> r.position == layer.position
    ensures u.position.Some? ==> r.position == u.position.value
    ensures u.fontSize.None? ==> r.fontSize == layer.fontSize
    ensures u.fontSize.Some? ==> r.fontSize == u.fontSize.value
    ensures u.fontFamily.None? ==> r.fontFamily == layer.fontFamily
    ensures u.fontFamily.Some? ==> r.fontFamily == u.fontFamily.value
    ensures u.color.None? ==> r.color == layer.color
    ensures u.color.Some? ==> r.color == u.color.value
    ensures u.rotation.None? ==> r.rotation == layer.rotation
    ensures u.rotation.Some? ==> r.rotation == u.rotation.value
  {
    TextLayer(
      OrElse(u.id, layer.id), OrElse(u.text, layer.text), OrElse(u.position, layer.position),
      OrElse(u.fontSize, layer.fontSize), OrElse(u.fontFamily, layer.fontFamily),
      OrElse(u.color, layer.color), OrElse(u.rotation, layer.rotation))
  }

  /** Applying `u` and then `v` is applying `v` over `u` once. */
  function Then(u: LayerUpdate, v: LayerUpdate): LayerUpdate {
    LayerUpdate(
      if v.id.Some? then v.id else u.id,
      if v.text.Some? then v.text else u.text,
      if v.position.Some? then v.position else u.position,
      if v.fontSize.Some? then v.fontSize else u.fontSize,
      if v.fontFamily.Some? then v.fontFamily else u.fontFamily,
      if v.color.Some? then v.color else u.color,
      if v.rotation.Some? then v.rotation else u.rotation)
  }

  predicate HasId(layers: seq<TextLayer>, id: string) {
    exists i :: 0 <= i < |layers| && layers[i].id == id
  }

  predicate DistinctIds(layers: seq<TextLayer>) {
    forall i, j :: 0 <= i < j < |layers| ==> layers[i].id != layers[j].id
  }

  /** How many layers carry `id`. */
  function CountId(layers: seq<TextLayer>, id: string): nat {
    if layers == [] then 0
    else (if layers[0].id == id then 1 else 0) + CountId(layers[1..], id)
  }

  /** `layers.map(l => l.id === id ? { ...l, ...u } : l)`. */
  function Patched(layers: seq<TextLayer>, id: string, u: LayerUpdate): (r: seq<TextLayer>)
    ensures |r| == |layers|
    ensures forall i :: 0 <= i < |layers| ==>
      r[i] == if layers[i].id == id then Merge(layers[i], u) else layers[i]
  {
    if layers == [] then []
    else [if layers[0].id == id then Merge(layers[0], u) else layers[0]] + Patched(layers[1..], id, u)
  }

  /** `layers.filter(l => l.id !== id)`. */
  function Filtered(layers: seq<TextLayer>, id: string): (r: seq<TextLayer>)
    ensures forall l :: l in r <==> l in layers && l.id != id
    ensures |r| + CountId(layers, id) == |layers|
  {
    if layers == [] then []
    else (if layers[0].id != id then [layers[0]] else []) + Filtered(layers[1..], id)
  }

  /** `layers.find(l => l.id === id)`: the first layer with that id, if any. */
  function FindLayer(layers: seq<TextLayer>, id: string): (r: Option<TextLayer>)
    ensures r.None? <==> !HasId(layers, id)
    ensures r.Some? ==> exists i :: 0 <= i < |layers| && layers[i] == r.value && r.value.id == id &&
                                     forall j :: 0 <= j < i ==> layers[j].id != id
  {
    if layers == [] then None
    else if layers[0].id == id then Some(layers[0])
    else
      var rest := FindLayer(layers[1..], id);
      if rest.Some? then
        ghost var i :| 0 <= i < |layers[1..]| && layers[1..][i] == rest.value && rest.value.id == id &&
                        forall j :: 0 <= j < i ==> layers[1..][j].id != id;
        assert layers[i + 1] == rest.value;
        rest
      else
        assert forall i :: 0 < i < |layers| ==> layers[i] == layers[1..][i - 1];
        rest
  }

  // ---------------------------------------------------------------------------
  // Properties of the update merge

  lemma MergeIdempotent(layer: TextLayer, u: LayerUpdate)
    ensures Merge(Merge(layer, u), u) == Merge(layer, u)
  {
  }

  lemma MergeThen(layer: TextLayer, u: LayerUpdate, v: LayerUpdate)
    ensures Merge(Merge(layer, u), v) == Merge(layer, Then(u, v))
  {
  }

  // ---------------------------------------------------------------------------
  // Properties of Patched

  /** An update of an id no layer carries changes nothing. */
  lemma {:induction false} PatchedAbsent(layers: seq<TextLayer>, id: string, u: LayerUpdate)
    requires !HasId(layers, id)
    ensures Patched(layers, id, u) == layers
  {
    var r := Patched(layers, id, u);
    forall i | 0 <= i < |layers| ensures r[i] == layers[i] {
      assert layers[i].id != id;
    }
  }

  /** Repeating the same update changes nothing more. */
  lemma {:induction false} PatchedIdempotent(layers: seq<TextLayer>, id: string, u: LayerUpdate)
    ensures Patched(Patched(layers, id, u), id, u) == Patched(layers, id, u)
  {
    var once := Patched(layers, id, u);
    if u.id.Some? && u.id.value != id {
      assert !HasId(once, id) by {
        forall i | 0 <= i < |once| ensures once[i].id != id {
          if layers[i].id == id {
            assert once[i].id == u.id.value;
          }
        }
      }
      PatchedAbsent(once, id, u);
    } else {
      var twice := Patched(once, id, u);
      forall i | 0 <= i < |layers| ensures twice[i] == once[i] {
        if layers[i].id == id {
          MergeIdempotent(layers[i], u);
        }
      }
    }
  }

  /** Two updates in a row are one combined update. */
  lemma {:induction false} PatchedThen(layers: seq<TextLayer>, id: string, u: LayerUpdate, v: LayerUpdate)
    requires u.id.None? || u.id == Some(id)
    ensures Patched(Patched(layers, id, u), id, v) == Patched(layers, id, Then(u, v))
  {
    var first := Patched(layers, id, u);
    var both := Patched(first, id, v);
    var once := Patched(layers, id, Then(u, v));
    forall i | 0 <= i < |layers| ensures both[i] == once[i] {
      if layers[i].id == id {
        MergeThen(layers[i], u, v);
      }
    }
  }

  // ---------------------------------------------------------------------------
  // Properties of Filtered and CountId

  /** Filtering distributes over concatenation: the kept layers stay in their relative order. */
  lemma {:induction false} FilteredAppend(a: seq<TextLayer>, b: seq<TextLayer>, id: string)
    ensures Filtered(a + b, id) == Filtered(a, id) + Filtered(b, id)
  {
    if a == [] {
      assert a + b == b;
    } else {
      assert (a + b)[1..] == a[1..] + b;
      FilteredAppend(a[1..], b, id);
    }
  }

  /** Filtering a single layer keeps it exactly when its id differs. */
  lemma FilteredSingle(l: TextLayer, id: string)
    ensures Filtered([l], id) == if l.id != id then [l] else []
  {
    assert [l][1..] == [];
  }

  lemma {:induction false} CountIdPositive(layers: seq<TextLayer>, id: string)
    requires HasId(layers, id)
    ensures CountId(layers, id) >= 1
  {
    if layers[0].id != id {
      var i :| 0 <= i < |layers| && layers[i].id == id;
      assert layers[1..][i - 1].id == id;
      CountIdPositive(layers[1..], id);
    }
  }

  lemma {:induction false} CountIdZero(layers: seq<TextLayer>, id: string)
    requires !HasId(layers, id)
    ensures CountId(layers, id) == 0
  {
    if layers != [] {
      assert layers[0].id != id;
      assert !HasId(layers[1..], id) by {
        forall i | 0 <= i < |layers[1..]| ensures layers[1..][i].id != id {
          assert layers[1..][i] == layers[i + 1];
        }
      }
      CountIdZero(layers[1..], id);
    }
  }

  lemma {:induction false} CountIdDistinct(layers: seq<TextLayer>, id: string)
    requires DistinctIds(layers)
    ensures CountId(layers, id) <= 1
  {
    if layers != [] {
      var rest := layers[1..];
      assert DistinctIds(rest) by {
        forall i, j | 0 <= i < j < |rest| ensures rest[i].id != rest[j].id {
          assert rest[i] == layers[i + 1] && rest[j] == layers[j + 1];
        }
      }
      CountIdDistinct(rest, id);
      if layers[0].id == id {
        assert !HasId(rest, id) by {
          forall i | 0 <= i < |rest| ensures rest[i].id != id {
            assert rest[i] == layers[i + 1];
          }
        }
        CountIdZero(rest, id);
      }
    }
  }

  /** With distinct ids, filtering out an id that is present drops exactly one layer. */
  lemma {:induction false} RemovingPresentIdDropsOne(layers: seq<TextLayer>, id: string)
    requires DistinctIds(layers) && HasId(layers, id)
    ensures |Filtered(layers, id)| == |layers| - 1
  {
    CountIdDistinct(layers, id);
    CountIdPositive(layers, id);
  }

  /** With distinct ids, filtering out any id leaves all but at most one layer. */
  lemma {:induction false} RemovingDropsAtMostOne(layers: seq<TextLayer>, id: string)
    requires DistinctIds(layers)
    ensures |Filtered(layers, id)| >= |layers| - 1
  {
    CountIdDistinct(layers, id);
  }

  /** Filtering out an id no layer carries changes nothing. */
  lemma {:induction false} FilteredAbsent(layers: seq<TextLayer>, id: string)
    requires !HasId(layers, id)
    ensures Filtered(layers, id) == layers
  {
    if layers != [] {
      assert layers[0].id != id;
      assert !HasId(layers[1..], id) by {
        forall i | 0 <= i < |layers[1..]| ensures layers[1..][i].id != id {
          assert layers[1..][i] == layers[i + 1];
        }
      }
      FilteredAbsent(layers[1..], id);
      assert [layers[0]] + layers[1..] == layers;
    }
  }

  /** Filtering keeps distinct ids distinct. */
  lemma {:induction false} FilteredDistinct(layers: seq<TextLayer>, id: string)
    requires DistinctIds(layers)
    ensures DistinctIds(Filtered(layers, id))
  {
    if layers != [] {
      var rest := layers[1..];
      assert DistinctIds(rest) by {
        forall i, j | 0 <= i < j < |rest| ensures rest[i].id != rest[j].id {
          assert rest[i] == layers[i + 1] && rest[j] == layers[j + 1];
        }
      }
      FilteredDistinct(rest, id);
      var fr := Filtered(rest, id);
      if layers[0].id != id {
        forall k | 0 <= k < |fr| ensures fr[k].id != layers[0].id {
          assert fr[k] in rest;
          var m :| 0 <= m < |rest| && rest[m] == fr[k];
          assert rest[m] == layers[m + 1];
        }
      }
    }
  }

  // ---------------------------------------------------------------------------
  // Fresh ids for appended layers

  /** Every id is `String(k)` for some `1 <= k <= n`. */
  predicate IdsUpTo(layers: seq<TextLayer>, n: nat) {
    forall i :: 0 <= i < |layers| ==>
      exists k: nat :: 1 <= k <= n && layers[i].id == Decimal.NatString(k)
  }

  /**
   * While every id is `String(k)` with `k` at most the list length, the id of
   * an appended layer is new, and the same kind of invariant holds afterwards.
   * Removals break the premise, which is how ids come to repeat.
   */
  lemma {:induction false} AppendedIdIsFresh(layers: seq<TextLayer>)
    requires DistinctIds(layers) && IdsUpTo(layers, |layers|)
    ensures !HasId(layers, NewLayer(|layers|).id)
    ensures DistinctIds(layers + [NewLayer(|layers|)])
    ensures IdsUpTo(layers + [NewLayer(|layers|)], |layers| + 1)
  {
    var added := NewLayer(|layers|);
    forall i | 0 <= i < |layers| ensures layers[i].id != added.id {
      var k: nat :| 1 <= k <= |layers| && layers[i].id == Decimal.NatString(k);
      if layers[i].id == added.id {
        Decimal.NatStringInjective(k, |layers| + 1);
      }
    }
    var grown := layers + [added];
    forall i | 0 <= i < |grown| ensures exists k: nat :: 1 <= k <= |layers| + 1 && grown[i].id == Decimal.NatString(k) {
      if i == |layers| {
        assert grown[i].id == Decimal.NatString(|layers| + 1);
      } else {
        assert grown[i] == layers[i];
      }
    }
  }

  /** The initial list satisfies the premise of AppendedIdIsFresh. */
  lemma InitialIdsUpToLength()
    ensures DistinctIds([InitialLayer]) && IdsUpTo([InitialLayer], 1)
  {
    assert InitialLayer.id == Decimal.NatString(1);
  }
}
