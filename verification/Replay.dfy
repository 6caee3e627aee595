/**
 How one side of the book follows its messages, by price.
 Deltas are merged per price by sequence id; a snapshot replaces the side but keeps newer rows.
 */
module Replay {
  import opened Common
  import opened PriceLevels

  type SideMap = map<real, Level>

  datatype Kind = UnknownKind | Snapshot | Delta

  /** The part of a message that concerns one side. */
  datatype Update = Update(kind: Kind, levels: seq<Level>)

  predicate IsRemoval(r: Level) { r.volume == 0.0 }

  /** Storing a level; a level without volume is removed. */
  function PutLevel(m: SideMap, r: Level): SideMap {
    if IsRemoval(r) then m - {r.price} else m[r.price := r]
  }

  /** A delta record is ignored when the row it concerns is at least as new. */
  function ApplyOne(m: SideMap, r: Level): SideMap {
    if r.price in m && m[r.price].seqId >= r.seqId then m else PutLevel(m, r)
  }

  function ApplyAll(m: SideMap, rs: seq<Level>): SideMap {
    if rs == [] then m else ApplyOne(ApplyAll(m, rs[..|rs| - 1]), rs[|rs| - 1])
  }

  function PutAll(m: SideMap, rs: seq<Level>): SideMap {
    if rs == [] then m else PutLevel(PutAll(m, rs[..|rs| - 1]), rs[|rs| - 1])
  }

  /** The rows of `snap`, except where the old row is newer. */
  function MergeNewer(m: SideMap, snap: SideMap): SideMap {
    map p | p in snap :: if p in m && snap[p].seqId < m[p].seqId then m[p] else snap[p]
  }

  function ApplyUpdate(m: SideMap, u: Update): SideMap {
    match u.kind
    case Snapshot => if u.levels == [] then m else MergeNewer(m, PutAll(map[], u.levels))
    case Delta => ApplyAll(m, u.levels)
    case UnknownKind => m
  }

  function ApplyUpdates(m: SideMap, us: seq<Update>): SideMap {
    if us == [] then m else ApplyUpdate(ApplyUpdates(m, us[..|us| - 1]), us[|us| - 1])
  }

  /** Every row is filed under its own price and has volume. */
  ghost predicate Proper(m: SideMap) {
    forall p | p in m :: m[p].price == p && !IsRemoval(m[p])
  }

  lemma {:induction false} ApplyAllProper(m: SideMap, rs: seq<Level>)
    requires Proper(m)
    ensures Proper(ApplyAll(m, rs)) && Proper(PutAll(m, rs))
  {
    if rs != [] {
      ApplyAllProper(m, rs[..|rs| - 1]);
    }
  }

  lemma {:induction false} ApplyUpdatesProper(m: SideMap, us: seq<Update>)
    requires Proper(m)
    ensures Proper(ApplyUpdates(m, us))
  {
    if us != [] {
      var n := |us| - 1;
      ApplyUpdatesProper(m, us[..n]);
      ApplyAllProper(ApplyUpdates(m, us[..n]), us[n].levels);
      ApplyAllProper(map[], us[n].levels);
    }
  }

  /** A row comes from the book before or from the records. */
  lemma {:induction false} RowFrom(m: SideMap, rs: seq<Level>, p: real)
    ensures p in ApplyAll(m, rs) ==> ApplyAll(m, rs)[p] in rs || (p in m && ApplyAll(m, rs)[p] == m[p])
    ensures p in PutAll(m, rs) ==> PutAll(m, rs)[p] in rs || (p in m && PutAll(m, rs)[p] == m[p])
  {
    if rs != [] {
      RowFrom(m, rs[..|rs| - 1], p);
      assert forall r | r in rs[..|rs| - 1] :: r in rs;
    }
  }

  /** Every row is a record of some message. */
  lemma {:induction false} RowFromUpdates(us: seq<Update>, p: real) returns (i: nat)
    requires p in ApplyUpdates(map[], us)
    ensures i < |us| && ApplyUpdates(map[], us)[p] in us[i].levels
  {
    var n := |us| - 1;
    var m := ApplyUpdates(map[], us[..n]);
    RowFrom(m, us[n].levels, p);
    RowFrom(map[], us[n].levels, p);
    if ApplyUpdates(map[], us)[p] in us[n].levels {
      i := n;
    } else {
      i := RowFromUpdates(us[..n], p);
    }
  }

  // ---------------------------------------------------------------------------------------------
  // Closed form
  // ---------------------------------------------------------------------------------------------

  /** The row at a price, if there is one. */
  function At(m: SideMap, p: real): Option<Level> {
    if p in m then Some(m[p]) else None
  }

  /** `m` has a row at `p` that is at least as new as every record for `p` in `rs`. */
  ghost predicate Newest(m: SideMap, p: real, rs: seq<Level>) {
    p in m && forall r | r in rs && r.price == p :: m[p].seqId >= r.seqId
  }

  ghost predicate Mentions(rs: seq<Level>, p: real) {
    exists r :: r in rs && r.price == p
  }

  lemma SameRows(a: SideMap, b: SideMap)
    requires forall p :: At(a, p) == At(b, p)
    ensures a == b
  {
    forall p ensures p in a <==> p in b {
      assert At(a, p) == At(b, p);
    }
    forall p | p in a ensures a[p] == b[p] {
      assert At(a, p) == At(b, p);
    }
  }

  /** What is there came in a record. */
  lemma {:induction false} FromRecords(rs: seq<Level>, p: real)
    requires p in ApplyAll(map[], rs)
    ensures ApplyAll(map[], rs)[p] in rs && ApplyAll(map[], rs)[p].price == p
  {
    if rs != [] {
      var n := |rs| - 1;
      if !(rs[n].price == p && ApplyAll(map[], rs)[p] == rs[n]) {
        FromRecords(rs[..n], p);
      }
    }
  }

  /**
   Any sequence of deltas, in closed form: a row survives exactly when it is at least as new as every
   record delivered for its price; otherwise the starting book does not matter at that price.
   */
  lemma {:induction false} DeltasClosedForm(m: SideMap, rs: seq<Level>, p: real)
    ensures At(ApplyAll(m, rs), p)
         == if Newest(m, p, rs) || !Mentions(rs, p) then At(m, p) else At(ApplyAll(map[], rs), p)
  {
    if rs != [] {
      var n := |rs| - 1;
      var init, r := rs[..n], rs[n];
      DeltasClosedForm(m, init, p);
      assert forall x :: x in rs <==> x in init || x == r;
      if r.price == p {
        assert Mentions(rs, p);
        assert Newest(m, p, rs) <==> Newest(m, p, init) && m[p].seqId >= r.seqId;
        if p in ApplyAll(map[], init) {
          FromRecords(init, p);
        }
      } else {
        assert Mentions(rs, p) <==> Mentions(init, p);
        assert Newest(m, p, rs) <==> Newest(m, p, init);
      }
    }
  }

  /** Delivering the same message again at once changes nothing. */
  lemma ReapplyIsIdle(m: SideMap, u: Update)
    ensures ApplyUpdate(ApplyUpdate(m, u), u) == ApplyUpdate(m, u)
  {
    if u.kind.Delta? {
      var once := ApplyAll(m, u.levels);
      forall p ensures At(ApplyAll(once, u.levels), p) == At(once, p) {
        DeltasClosedForm(m, u.levels, p);
        DeltasClosedForm(once, u.levels, p);
      }
      SameRows(ApplyAll(once, u.levels), once);
    }
  }

  /** The records of one message carry one sequence id. */
  ghost predicate OneSeq(u: Update, seqId: int) {
    forall r | r in u.levels :: r.seqId == seqId
  }

  /** Across one message a row that stays never gets an older sequence id. */
  lemma SeqNeverDecreases(m: SideMap, u: Update, seqId: int, p: real)
    requires OneSeq(u, seqId) && p in m && p in ApplyUpdate(m, u)
    ensures ApplyUpdate(m, u)[p].seqId >= m[p].seqId
  {
    if u.kind.Delta? {
      DeltasClosedForm(m, u.levels, p);
      if !Newest(m, p, u.levels) && Mentions(u.levels, p) {
        FromRecords(u.levels, p);
      }
    }
  }

  /** Within one message of mixed sequence ids it can: the removal leaves no trace of its id. */
  lemma MixedIdsCanDecrease()
    ensures var m := map[1.0 := Level(6, 1.0, 1.0)];
      var u := Update(Delta, [Level(7, 1.0, 0.0), Level(5, 1.0, 2.0)]);
      1.0 in ApplyUpdate(m, u) && ApplyUpdate(m, u)[1.0].seqId < m[1.0].seqId
  {
    var m := map[1.0 := Level(6, 1.0, 1.0)];
    var rs := [Level(7, 1.0, 0.0), Level(5, 1.0, 2.0)];
    assert rs[..1] == [Level(7, 1.0, 0.0)] && rs[..1][..0] == [];
    assert ApplyAll(m, rs[..1]) == m - {1.0};
  }

  // ---------------------------------------------------------------------------------------------
  // Delivery order
  // ---------------------------------------------------------------------------------------------

  /** No removal is newer than a put at its price, and no two puts at a price share an id. */
  predicate Compatible(a: Level, b: Level) {
    || a.price != b.price || a == b
    || (IsRemoval(a) && IsRemoval(b))
    || (!IsRemoval(a) && !IsRemoval(b) && a.seqId != b.seqId)
    || (IsRemoval(a) && !IsRemoval(b) && b.seqId >= a.seqId)
    || (!IsRemoval(a) && IsRemoval(b) && a.seqId >= b.seqId)
  }

  lemma CompatibleCommutes(m: SideMap, a: Level, b: Level)
    requires Compatible(a, b)
    ensures ApplyOne(ApplyOne(m, a), b) == ApplyOne(ApplyOne(m, b), a)
  {
  }

  /** Two records can be delivered in either order, whatever the book, if and only if they are compatible. */
  lemma CommuteIff(a: Level, b: Level)
    ensures (forall m: SideMap :: ApplyOne(ApplyOne(m, a), b) == ApplyOne(ApplyOne(m, b), a)) <==> Compatible(a, b)
  {
    if Compatible(a, b) {
      forall m: SideMap ensures ApplyOne(ApplyOne(m, a), b) == ApplyOne(ApplyOne(m, b), a) {
        CompatibleCommutes(m, a, b);
      }
    } else {
      var e: SideMap := map[];
      var x, y := ApplyOne(ApplyOne(e, a), b), ApplyOne(ApplyOne(e, b), a);
      assert At(x, a.price) != At(y, a.price);
    }
  }

  ghost predicate SameRecords(a: seq<Level>, b: seq<Level>) {
    forall r :: r in a <==> r in b
  }

  /** `top` is a put, newer than every other put at its price and at least as new as every removal there. */
  ghost predicate Tops(rs: seq<Level>, top: Level) {
    && top in rs && !IsRemoval(top)
    && forall r | r in rs && r.price == top.price && r != top ::
         r.seqId <= top.seqId && (r.seqId == top.seqId ==> IsRemoval(r))
  }

  ghost predicate HasPut(rs: seq<Level>, p: real) {
    exists r :: r in rs && r.price == p && !IsRemoval(r)
  }

  /** At every price where anything is put, one put tops all records. */
  ghost predicate Decided(rs: seq<Level>) {
    forall p :: HasPut(rs, p) ==> exists top :: Tops(rs, top) && top.price == p
  }

  /** From an empty book the topping put is what remains, in whatever order the records come. */
  lemma {:induction false} TopRemains(rs: seq<Level>, all: seq<Level>, top: Level)
    requires Tops(all, top) && top in rs && forall r | r in rs :: r in all
    ensures At(ApplyAll(map[], rs), top.price) == Some(top)
  {
    var n := |rs| - 1;
    var init, r := rs[..n], rs[n];
    assert r in all && forall x | x in init :: x in all;
    if top in init {
      TopRemains(init, all, top);
    } else if top.price in ApplyAll(map[], init) {
      FromRecords(init, top.price);
      ApplyAllProper(map[], init);
    }
  }

  lemma RemovalsLeaveNothing(rs: seq<Level>, p: real)
    requires !HasPut(rs, p)
    ensures p !in ApplyAll(map[], rs)
  {
    if p in ApplyAll(map[], rs) {
      FromRecords(rs, p);
      ApplyAllProper(map[], rs);
    }
  }

  lemma SameRow(m: SideMap, a: seq<Level>, b: seq<Level>, p: real)
    requires Decided(a) && SameRecords(a, b)
    ensures At(ApplyAll(m, a), p) == At(ApplyAll(m, b), p)
  {
    DeltasClosedForm(m, a, p);
    DeltasClosedForm(m, b, p);
    assert Mentions(a, p) <==> Mentions(b, p);
    assert Newest(m, p, a) <==> Newest(m, p, b);
    assert HasPut(a, p) <==> HasPut(b, p);
    if HasPut(a, p) {
      var top :| Tops(a, top) && top.price == p;
      TopRemains(a, a, top);
      TopRemains(b, a, top);
    } else {
      RemovalsLeaveNothing(a, p);
      RemovalsLeaveNothing(b, p);
    }
  }

  /** Decided records lead to one book, in any delivery order and with any duplication. */
  lemma DeliveryOrderIrrelevant(m: SideMap, a: seq<Level>, b: seq<Level>)
    requires Decided(a) && SameRecords(a, b)
    ensures ApplyAll(m, a) == ApplyAll(m, b)
  {
    forall p ensures At(ApplyAll(m, a), p) == At(ApplyAll(m, b), p) {
      SameRow(m, a, b, p);
    }
    SameRows(ApplyAll(m, a), ApplyAll(m, b));
  }

  /** A put that no put at its price is newer than. */
  lemma {:induction false} NewestPut(rs: seq<Level>, p: real) returns (x: Level)
    requires HasPut(rs, p)
    ensures x in rs && x.price == p && !IsRemoval(x)
    ensures forall r | r in rs && r.price == p && !IsRemoval(r) :: r.seqId <= x.seqId
  {
    var n := |rs| - 1;
    assert forall r :: r in rs <==> r in rs[..n] || r == rs[n];
    x := rs[n];
    if HasPut(rs[..n], p) {
      var y := NewestPut(rs[..n], p);
      if !(rs[n].price == p && !IsRemoval(rs[n]) && rs[n].seqId > y.seqId) {
        x := y;
      }
    }
  }

  lemma ApplyLast(m: SideMap, rs: seq<Level>, r: Level)
    ensures ApplyAll(m, rs + [r]) == ApplyOne(ApplyAll(m, rs), r)
  {
    assert (rs + [r])[..|rs|] == rs;
  }

  lemma {:induction false} ApplySplits(m: SideMap, a: seq<Level>, b: seq<Level>)
    ensures ApplyAll(m, a + b) == ApplyAll(ApplyAll(m, a), b)
  {
    if b == [] {
      assert a + b == a;
    } else {
      var n := |b| - 1;
      ApplySplits(m, a, b[..n]);
      assert a + b == (a + b[..n]) + [b[n]];
      ApplyLast(m, a + b[..n], b[n]);
    }
  }

  /** A removal newer than every put at its price: delivered last it empties the row, otherwise it need not. */
  lemma NewerRemovalMatters(rs: seq<Level>, x: Level, z: Level)
    requires x in rs && z in rs && x.price == z.price && !IsRemoval(x) && IsRemoval(z)
    requires forall r | r in rs && r.price == x.price && !IsRemoval(r) :: r.seqId < z.seqId
    ensures ApplyAll(map[], rs + [z]) != ApplyAll(map[], rs + [x])
  {
    ApplyLast(map[], rs, z);
    ApplyLast(map[], rs, x);
    if x.price in ApplyAll(map[], rs) {
      FromRecords(rs, x.price);
      ApplyAllProper(map[], rs);
    }
    assert x.price !in ApplyAll(map[], rs + [z]);
    assert x.price in ApplyAll(map[], rs + [x]);
  }

  /** A put at least as new as everything at its price, delivered first, stays. */
  lemma FirstStays(rs: seq<Level>, x: Level)
    requires !IsRemoval(x) && forall r | r in rs && r.price == x.price :: r.seqId <= x.seqId
    ensures At(ApplyAll(map[], [x] + rs), x.price) == Some(x)
  {
    var m: SideMap := map[x.price := x];
    ApplySplits(map[], [x], rs);
    assert [x][..0] == [];
    assert ApplyAll(map[], [x]) == m;
    DeltasClosedForm(m, rs, x.price);
  }

  /** Two newest puts at one price: the one delivered first stays. */
  lemma RivalsMatter(rs: seq<Level>, x: Level, y: Level)
    requires x != y && x.price == y.price && x.seqId == y.seqId && !IsRemoval(x) && !IsRemoval(y)
    requires forall r | r in rs && r.price == x.price :: r.seqId <= x.seqId
    ensures ApplyAll(map[], [x] + rs) != ApplyAll(map[], [y] + rs)
  {
    FirstStays(rs, x);
    FirstStays(rs, y);
  }

  lemma AgainIsSame(rs: seq<Level>, r: Level)
    requires r in rs
    ensures SameRecords(rs + [r], rs) && SameRecords([r] + rs, rs)
  {
  }

  lemma UndecidedDiverges(rs: seq<Level>) returns (a: seq<Level>, b: seq<Level>)
    requires !Decided(rs)
    ensures SameRecords(a, rs) && SameRecords(b, rs) && ApplyAll(map[], a) != ApplyAll(map[], b)
  {
    var p :| HasPut(rs, p) && !exists top :: Tops(rs, top) && top.price == p;
    var x := NewestPut(rs, p);
    assert !Tops(rs, x);
    AgainIsSame(rs, x);
    if z :| z in rs && z.price == p && IsRemoval(z) && z.seqId > x.seqId {
      NewerRemovalMatters(rs, x, z);
      AgainIsSame(rs, z);
      a, b := rs + [z], rs + [x];
    } else {
      var y :| y in rs && y.price == p && y != x && !(y.seqId <= x.seqId && (y.seqId == x.seqId ==> IsRemoval(y)));
      RivalsMatter(rs, x, y);
      AgainIsSame(rs, y);
      a, b := [x] + rs, [y] + rs;
    }
  }

  /** Every delivery of the records, from every book, ends alike if and only if the records are decided. */
  lemma ConvergesIff(rs: seq<Level>)
    ensures (forall m: SideMap, a, b | SameRecords(a, rs) && SameRecords(b, rs) :: ApplyAll(m, a) == ApplyAll(m, b))
       <==> Decided(rs)
  {
    if Decided(rs) {
      forall m: SideMap, a, b | SameRecords(a, rs) && SameRecords(b, rs) ensures ApplyAll(m, a) == ApplyAll(m, b) {
        DeliveryOrderIrrelevant(m, rs, a);
        DeliveryOrderIrrelevant(m, rs, b);
      }
    } else {
      var a, b := UndecidedDiverges(rs);
    }
  }

  /** Without removals each price holds its newest record, or the older row if that is as new. */
  lemma {:induction false} NewestRecordWins(m: SideMap, rs: seq<Level>, p: real)
    requires forall r | r in rs :: !IsRemoval(r)
    ensures p in ApplyAll(m, rs) <==> p in m || Mentions(rs, p)
    ensures p in ApplyAll(m, rs) ==>
      var l := ApplyAll(m, rs)[p];
      && ((l in rs && l.price == p) || (p in m && l == m[p]))
      && (forall r | r in rs && r.price == p :: r.seqId <= l.seqId)
      && (p in m ==> m[p].seqId <= l.seqId)
  {
    if rs != [] {
      var n := |rs| - 1;
      NewestRecordWins(m, rs[..n], p);
      assert forall x :: x in rs <==> x in rs[..n] || x == rs[n];
      assert Mentions(rs, p) <==> Mentions(rs[..n], p) || rs[n].price == p;
    }
  }

  /** Records without removals, one per price and id, are decided: every delivery ends in the same book. */
  lemma RemovalFreeConverges(m: SideMap, a: seq<Level>, b: seq<Level>)
    requires SameRecords(a, b)
    requires forall r | r in a :: !IsRemoval(r)
    requires forall x, y | x in a && y in a && x.price == y.price && x.seqId == y.seqId :: x == y
    ensures ApplyAll(m, a) == ApplyAll(m, b)
  {
    forall p | HasPut(a, p) ensures exists top :: Tops(a, top) && top.price == p {
      var x := NewestPut(a, p);
      assert Tops(a, x);
    }
    DeliveryOrderIrrelevant(m, a, b);
  }

  // ---------------------------------------------------------------------------------------------
  // The naive replay
  // ---------------------------------------------------------------------------------------------

  /** What a reader would expect of an ordered feed: no sequence ids, the last word counts. */
  function NaiveUpdate(m: SideMap, u: Update): SideMap {
    match u.kind
    case Snapshot => if u.levels == [] then m else PutAll(map[], u.levels)
    case Delta => PutAll(m, u.levels)
    case UnknownKind => m
  }

  function NaiveUpdates(m: SideMap, us: seq<Update>): SideMap {
    if us == [] then m else NaiveUpdate(NaiveUpdates(m, us[..|us| - 1]), us[|us| - 1])
  }

  ghost predicate DistinctPrices(rs: seq<Level>) {
    forall i, j | 0 <= i < j < |rs| :: rs[i].price != rs[j].price
  }

  /** Messages arrive in order: message `i` carries `ids[i]`, and the ids strictly increase. */
  ghost predicate InOrder(us: seq<Update>, ids: seq<int>) {
    && |us| == |ids|
    && (forall i | 0 <= i < |us| :: OneSeq(us[i], ids[i]) && DistinctPrices(us[i].levels))
    && (forall i, j | 0 <= i < j < |ids| :: ids[i] < ids[j])
  }

  ghost predicate AllOlder(m: SideMap, seqId: int) {
    forall p | p in m :: m[p].seqId < seqId
  }

  lemma {:induction false} PutAllElsewhere(m: SideMap, rs: seq<Level>, p: real)
    requires !Mentions(rs, p)
    ensures At(PutAll(m, rs), p) == At(m, p)
  {
    if rs != [] {
      var n := |rs| - 1;
      assert forall r | r in rs[..n] :: r in rs;
      assert rs[n] in rs;
      PutAllElsewhere(m, rs[..n], p);
    }
  }

  /** With one record per price, putting the records leaves each of them, or nothing for a removal. */
  lemma {:induction false} PutAllRow(m: SideMap, rs: seq<Level>, i: nat)
    requires DistinctPrices(rs) && i < |rs|
    ensures At(PutAll(m, rs), rs[i].price) == if IsRemoval(rs[i]) then None else Some(rs[i])
  {
    var n := |rs| - 1;
    if i < n {
      PutAllRow(m, rs[..n], i);
    }
  }

  /** What a snapshot makes of a price it names: its own row, unless the row before is strictly newer. */
  lemma SnapshotRow(m: SideMap, rs: seq<Level>, i: nat)
    requires DistinctPrices(rs) && i < |rs|
    ensures var r, t := rs[i], ApplyUpdate(m, Update(Snapshot, rs));
      At(t, r.price) == if r.volume == 0.0 then None
                        else if r.price in m && m[r.price].seqId > r.seqId then Some(m[r.price])
                        else Some(r)
  {
    PutAllRow(map[], rs, i);
  }

  /** A price that a snapshot does not name is gone, unless the snapshot is empty. */
  lemma SnapshotElsewhere(m: SideMap, rs: seq<Level>, p: real)
    requires !Mentions(rs, p)
    ensures At(ApplyUpdate(m, Update(Snapshot, rs)), p) == if rs == [] then At(m, p) else None
  {
    PutAllElsewhere(map[], rs, p);
  }

  /** What a delta makes of a price it names: its own record, unless the row before is at least as new. */
  lemma {:induction false} DeltaRow(m: SideMap, rs: seq<Level>, i: nat)
    requires DistinctPrices(rs) && i < |rs|
    ensures var r, t := rs[i], ApplyUpdate(m, Update(Delta, rs));
      At(t, r.price) == if r.price in m && m[r.price].seqId >= r.seqId then Some(m[r.price])
                        else if r.volume == 0.0 then None
                        else Some(r)
    decreases |rs|
  {
    var n := |rs| - 1;
    if i < n {
      DeltaRow(m, rs[..n], i);
    } else {
      assert !Mentions(rs[..n], rs[n].price);
      DeltasClosedForm(m, rs[..n], rs[n].price);
    }
  }

  /** A price that a delta does not name stays. */
  lemma DeltaElsewhere(m: SideMap, rs: seq<Level>, p: real)
    requires !Mentions(rs, p)
    ensures At(ApplyUpdate(m, Update(Delta, rs)), p) == At(m, p)
  {
    DeltasClosedForm(m, rs, p);
  }

  lemma {:induction false} PutAllSeq(m: SideMap, rs: seq<Level>, seqId: int)
    requires (forall p | p in m :: m[p].seqId <= seqId) && forall r | r in rs :: r.seqId == seqId
    ensures forall p | p in PutAll(m, rs) :: PutAll(m, rs)[p].seqId <= seqId
    ensures m == map[] ==> forall p | p in PutAll(m, rs) :: PutAll(m, rs)[p].seqId == seqId
  {
    if rs != [] {
      PutAllSeq(m, rs[..|rs| - 1], seqId);
    }
  }

  lemma {:induction false} NewerDeltaIsNaive(m: SideMap, rs: seq<Level>, seqId: int)
    requires AllOlder(m, seqId) && DistinctPrices(rs) && forall r | r in rs :: r.seqId == seqId
    ensures ApplyAll(m, rs) == PutAll(m, rs)
  {
    if rs != [] {
      var n := |rs| - 1;
      NewerDeltaIsNaive(m, rs[..n], seqId);
      assert !Mentions(rs[..n], rs[n].price);
      PutAllElsewhere(m, rs[..n], rs[n].price);
    }
  }

  /** On an ordered feed the merge by sequence id is the naive replay. */
  lemma {:induction false} OrderedFeedIsNaive(us: seq<Update>, ids: seq<int>)
    requires InOrder(us, ids)
    ensures ApplyUpdates(map[], us) == NaiveUpdates(map[], us)
    ensures us != [] ==> forall p | p in ApplyUpdates(map[], us) :: ApplyUpdates(map[], us)[p].seqId <= ids[|ids| - 1]
    ensures us == [] ==> ApplyUpdates(map[], us) == map[]
  {
    if us != [] {
      var n := |us| - 1;
      OrderedFeedIsNaive(us[..n], ids[..n]);
      var m, u, s := ApplyUpdates(map[], us[..n]), us[n], ids[n];
      assert AllOlder(m, s) by {
        if n > 0 {
          assert ids[..n][n - 1] == ids[n - 1] < ids[n];
        }
      }
      NewerDeltaIsNaive(m, u.levels, s);
      PutAllSeq(m, u.levels, s);
      PutAllSeq(map[], u.levels, s);
      var snap := PutAll(map[], u.levels);
      forall p | p in snap ensures MergeNewer(m, snap)[p] == snap[p] {
        assert snap[p].seqId == s;
      }
    }
  }
}
