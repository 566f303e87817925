/**
 Whole catch-up cycles: passes of the resumable snapshot, each continuing at
 the cursor the one before left, whatever the client refused in between.
 */
module SnapshotRuns {
  import opened Snapshot

  /** One pass: the model it saw, where it started, what it delivered and where it stopped. */
  datatype Pass = Pass(view: View, from: Cursor, sent: seq<Datum>, complete: bool, next: Cursor)

  /** The passes continue one another from `c` on; only the last may be complete. */
  predicate Cycle(capacity: nat, passes: seq<Pass>, c: Cursor) {
    passes == [] ||
    (var p := passes[0];
     && p.from == c && PassSpec(p.view, capacity, p.from, p.sent, p.complete, p.next)
     && (if p.complete then |passes| == 1 else Cycle(capacity, passes[1..], p.next)))
  }

  function Sent(passes: seq<Pass>): seq<Datum> {
    if passes == [] then [] else passes[0].sent + Sent(passes[1..])
  }

  /** The cursor these passes leave. */
  function Reached(passes: seq<Pass>, c: Cursor): (stop: Cursor) {
    if passes == [] then c else Reached(passes[1..], passes[0].next)
  }

  predicate Complete(passes: seq<Pass>) {
    passes != [] && passes[|passes| - 1].complete
  }

  /** The same positions have the same number of values; the values themselves may differ. */
  ghost predicate SameShape(capacity: nat, v: View, w: View) {
    v.End() == w.End() && forall p :: |ItemsAt(v, capacity, p)| == |ItemsAt(w, capacity, p)|
  }

  function Keys(items: seq<Datum>): (keys: seq<(nat, nat)>)
    ensures |keys| == |items| && forall i :: 0 <= i < |items| ==> keys[i] == (items[i].position, items[i].index)
  {
    seq(|items|, i requires 0 <= i < |items| => (items[i].position, items[i].index))
  }

  lemma KeysConcat(a: seq<Datum>, b: seq<Datum>)
    ensures Keys(a + b) == Keys(a) + Keys(b)
  {}

  lemma {:induction false} SameKeysFrom(capacity: nat, v: View, w: View, position: nat)
    requires SameShape(capacity, v, w)
    ensures Keys(ItemsFrom(v, capacity, position)) == Keys(ItemsFrom(w, capacity, position))
    decreases v.End() - position
  {
    hide ItemsAt, ItemsFrom;
    ItemsUnfold(v, capacity, position);
    ItemsUnfold(w, capacity, position);
    if position < v.End() {
      SameKeysFrom(capacity, v, w, position + 1);
      KeysConcat(ItemsAt(v, capacity, position), ItemsFrom(v, capacity, position + 1));
      KeysConcat(ItemsAt(w, capacity, position), ItemsFrom(w, capacity, position + 1));
      assert Keys(ItemsAt(v, capacity, position)) == Keys(ItemsAt(w, capacity, position));
    }
  }

  lemma SameKeysAfter(capacity: nat, v: View, w: View, c: Cursor)
    requires SameShape(capacity, v, w)
    ensures Keys(After(v, capacity, c)) == Keys(After(w, capacity, c))
  {
    hide ItemsAt, ItemsFrom, After;
    SameKeysFrom(capacity, v, w, c.position);
    AfterValue(v, capacity, c);
    AfterValue(w, capacity, c);
    var k := Min(c.value, |ItemsAt(v, capacity, c.position)|);
    assert k == Min(c.value, |ItemsAt(w, capacity, c.position)|);
    var a, b := ItemsFrom(v, capacity, c.position), ItemsFrom(w, capacity, c.position);
    assert Keys(a[k..]) == Keys(a)[k..] && Keys(b[k..]) == Keys(b)[k..];
  }

  /**
   For an unchanged model and any refusals, the passes together deliver every
   item exactly once and in order: all of them once complete, and before that
   exactly the ones before the cursor.
   */
  lemma {:induction false} ExactlyOnce(v: View, capacity: nat, passes: seq<Pass>, c: Cursor)
    requires Cycle(capacity, passes, c) && forall i :: 0 <= i < |passes| ==> passes[i].view == v
    ensures Complete(passes) ==> Sent(passes) == After(v, capacity, c)
    ensures !Complete(passes) ==> Sent(passes) + After(v, capacity, Reached(passes, c)) == After(v, capacity, c)
  {
    hide After, ItemsAt;
    if passes != [] {
      var p := passes[0];
      assert p.view == v;
      if p.complete {
        assert Sent(passes[1..]) == [];
        assert Sent(passes) == p.sent;
      } else {
        ExactlyOnce(v, capacity, passes[1..], p.next);
        assert Complete(passes) == Complete(passes[1..]);
        if !Complete(passes) {
          var rest := After(v, capacity, Reached(passes, c));
          assert p.sent + (Sent(passes[1..]) + rest) == Sent(passes) + rest;
        }
      }
    }
  }

  /**
   When values change between passes but not their number at any position,
   every (position, index) is still delivered exactly once and in order; each
   pass takes the values it delivers from the model it saw.
   */
  lemma {:induction false} EveryKeyOnce(v: View, capacity: nat, passes: seq<Pass>, c: Cursor)
    requires Cycle(capacity, passes, c)
    requires forall i :: 0 <= i < |passes| ==> SameShape(capacity, passes[i].view, v)
    ensures Complete(passes) ==> Keys(Sent(passes)) == Keys(After(v, capacity, c))
    ensures !Complete(passes) ==>
              Keys(Sent(passes)) + Keys(After(v, capacity, Reached(passes, c))) == Keys(After(v, capacity, c))
  {
    hide After, SameShape, ItemsAt;
    if passes != [] {
      var p := passes[0];
      assert SameShape(capacity, p.view, v);
      SameKeysAfter(capacity, p.view, v, p.from);
      KeysConcat(p.sent, Sent(passes[1..]));
      if p.complete {
        assert Sent(passes[1..]) == [];
        assert Sent(passes) == p.sent;
      } else {
        SameKeysAfter(capacity, p.view, v, p.next);
        KeysConcat(p.sent, After(p.view, capacity, p.next));
        EveryKeyOnce(v, capacity, passes[1..], p.next);
        assert Complete(passes) == Complete(passes[1..]);
        if !Complete(passes) {
          var rest := Keys(After(v, capacity, Reached(passes, c)));
          assert Keys(p.sent) + (Keys(Sent(passes[1..])) + rest) == Keys(Sent(passes)) + rest;
        }
      }
    }
  }

  /**
   If every pass that does not finish delivers something, the cycle is over
   after at most as many passes as there are values to deliver.
   */
  lemma {:induction false} CycleEnds(v: View, capacity: nat, passes: seq<Pass>, c: Cursor)
    requires Cycle(capacity, passes, c)
    requires forall i :: 0 <= i < |passes| ==> SameShape(capacity, passes[i].view, v)
    requires forall i :: 0 <= i < |passes| ==> passes[i].complete || passes[i].sent != []
    ensures |passes| <= 1 || |passes| <= |After(v, capacity, c)|
    ensures !Complete(passes) && passes != [] ==> |passes| < |After(v, capacity, c)|
  {
    hide After, SameShape, ItemsAt;
    if passes != [] && !passes[0].complete {
      var p := passes[0];
      assert SameShape(capacity, p.view, v) && p.sent != [];
      SameKeysAfter(capacity, p.view, v, p.from);
      SameKeysAfter(capacity, p.view, v, p.next);
      assert |Keys(After(v, capacity, c))| == |Keys(After(p.view, capacity, c))|;
      assert |Keys(After(v, capacity, p.next))| == |Keys(After(p.view, capacity, p.next))|;
      assert |After(v, capacity, p.next)| + |p.sent| == |After(v, capacity, c)|;
      CycleEnds(v, capacity, passes[1..], p.next);
      assert Complete(passes) == Complete(passes[1..]) || |passes| == 1;
    }
  }
}
