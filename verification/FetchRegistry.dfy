/** Admission control for audio fetches: at most one slot per part, at most `cap` fetches running, and
    two classes of waiting fetches kept in one deque. The specification has two first-in first-out
    queues; the class keeps the deque and refines it. */
module FetchRegistry {
  import opened Wrappers

  type Id = nat
  type Starter = nat

  datatype Fetch = Fetch(partId: Id, starter: Starter, high: bool)

  /** `slots` maps a registered part to whether its slot reads queued. The last four are history: the
      starters that were run, in order, the finished tasks, the starters taken on, and those dropped
      with a cancelled or removed part. */
  datatype State = State(
    slots: map<Id, bool>, high: seq<Fetch>, normal: seq<Fetch>, running: nat,
    started: seq<Starter>, finished: nat, accepted: multiset<Starter>, dropped: multiset<Starter>)

  datatype Op =
    | Submit(id: Id, starter: Starter, high: bool)
    | Promote(id: Id)
    | Cancel(id: Id)
    | Remove(id: Id)
    | Finish

  const INIT := State(map[], [], [], 0, [], 0, multiset{}, multiset{})

  // ---- Queues ---------------------------------------------------------------------------------------

  /** The place of a part in a queue, or the length if it is not there. */
  function Place(q: seq<Fetch>, id: Id): (i: nat)
    ensures i <= |q| && (i < |q| ==> q[i].partId == id)
    ensures i < |q| <==> id in Ids(q)
  {
    if q == [] || q[0].partId == id then 0 else 1 + Place(q[1..], id)
  }

  predicate Has(q: seq<Fetch>, id: Id) { Place(q, id) < |q| }

  function Without(q: seq<Fetch>, id: Id): seq<Fetch> {
    if q == [] then [] else if q[0].partId == id then Without(q[1..], id) else [q[0]] + Without(q[1..], id)
  }

  function Starters(q: seq<Fetch>): multiset<Starter> {
    if q == [] then multiset{} else multiset{q[0].starter} + Starters(q[1..])
  }

  function StartersOf(q: seq<Fetch>, id: Id): multiset<Starter> {
    if q == [] then multiset{}
    else (if q[0].partId == id then multiset{q[0].starter} else multiset{}) + StartersOf(q[1..], id)
  }

  function Ids(q: seq<Fetch>): set<Id> {
    if q == [] then {} else {q[0].partId} + Ids(q[1..])
  }

  predicate Distinct(q: seq<Fetch>) {
    q == [] || (q[0].partId !in Ids(q[1..]) && Distinct(q[1..]))
  }

  predicate AllIn(q: seq<Fetch>, high: bool) {
    q == [] || (q[0].high == high && AllIn(q[1..], high))
  }

  // ---- The two queues ---------------------------------------------------------------------------------

  function Raised(f: Fetch): Fetch { f.(high := true) }

  function Drop(s: State, id: Id): State {
    s.(slots := s.slots - {id}, high := Without(s.high, id), normal := Without(s.normal, id),
       dropped := s.dropped + StartersOf(s.high, id) + StartersOf(s.normal, id))
  }

  function Start(s: State, f: Fetch): State {
    s.(slots := if f.partId in s.slots then s.slots[f.partId := false] else s.slots, started := s.started + [f.starter])
  }

  function Next(cap: nat, s: State, op: Op): State {
    match op
    case Submit(id, starter, high) =>
      var f := Fetch(id, starter, high);
      if id in s.slots then s
      else if s.running < cap then
        s.(slots := s.slots[id := false], running := s.running + 1, started := s.started + [starter],
           accepted := s.accepted + multiset{starter})
      else
        var t := s.(slots := s.slots[id := true], accepted := s.accepted + multiset{starter});
        if high then t.(high := s.high + [f]) else t.(normal := s.normal + [f])
    case Promote(id) =>
      var i := Place(s.normal, id);
      if i < |s.normal| then
        s.(high := s.high + [Raised(s.normal[i])], normal := s.normal[..i] + s.normal[i + 1..])
      else s
    case Cancel(id) => if Has(s.high, id) || Has(s.normal, id) then Drop(s, id) else s
    case Remove(id) => Drop(s, id)
    case Finish =>
      var t := s.(finished := s.finished + 1);
      if s.high != [] then Start(t, s.high[0]).(high := s.high[1..])
      else if s.normal != [] then Start(t, s.normal[0]).(normal := s.normal[1..])
      else t.(running := s.running - (if s.running > 0 then 1 else 0))
  }

  /** A task that was started finishes once. */
  predicate CanDo(s: State, op: Op) { op.Finish? ==> s.finished < |s.started| }

  predicate CanRun(cap: nat, s: State, ops: seq<Op>)
    decreases |ops|
  {
    ops == [] || (CanDo(s, ops[0]) && CanRun(cap, Next(cap, s, ops[0]), ops[1..]))
  }

  function Run(cap: nat, s: State, ops: seq<Op>): State
    decreases |ops|
  {
    if ops == [] then s else Run(cap, Next(cap, s, ops[0]), ops[1..])
  }

  // ---- What every operation keeps -----------------------------------------------------------------------

  ghost predicate Permits(cap: nat, s: State) {
    && s.running <= cap && s.running + s.finished == |s.started|
    && (s.high != [] || s.normal != [] ==> s.running == cap)
  }

  ghost predicate Classes(s: State) {
    && AllIn(s.high, true) && AllIn(s.normal, false)
    && Distinct(s.high) && Distinct(s.normal) && Ids(s.high) !! Ids(s.normal)
  }

  /** The parts waiting are exactly the registered ones whose slot reads queued. */
  ghost predicate Flags(s: State) {
    forall id :: id in s.slots && s.slots[id] <==> id in Ids(s.high) || id in Ids(s.normal)
  }

  /** Every starter taken on was run once, waits once, or was dropped with its part. */
  ghost predicate Accounted(s: State) {
    s.accepted == multiset(s.started) + Starters(s.high) + Starters(s.normal) + s.dropped
  }

  ghost predicate Inv(cap: nat, s: State) { cap > 0 && Permits(cap, s) && Classes(s) && Flags(s) && Accounted(s) }

  lemma {:induction false} Appended(q: seq<Fetch>, f: Fetch)
    ensures Ids(q + [f]) == Ids(q) + {f.partId}
    ensures Distinct(q + [f]) <==> Distinct(q) && f.partId !in Ids(q)
    ensures AllIn(q + [f], f.high) <==> AllIn(q, f.high)
    ensures Starters(q + [f]) == Starters(q) + multiset{f.starter}
  {
    if q == [] {
      assert q + [f] == [f];
    } else {
      assert (q + [f])[1..] == q[1..] + [f];
      Appended(q[1..], f);
    }
  }

  lemma {:induction false} Filtered(q: seq<Fetch>, id: Id, high: bool)
    ensures Ids(Without(q, id)) == Ids(q) - {id}
    ensures Distinct(q) ==> Distinct(Without(q, id))
    ensures AllIn(q, high) ==> AllIn(Without(q, id), high)
  {
    hide Place;
    if q != [] {
      Filtered(q[1..], id, high);
      WithoutFirst(q, id);
    }
  }

  lemma WithoutFirst(q: seq<Fetch>, id: Id)
    requires q != []
    ensures q[0].partId == id ==> Without(q, id) == Without(q[1..], id)
    ensures q[0].partId != id ==>
              Without(q, id) != [] && Without(q, id)[0] == q[0] && Without(q, id)[1..] == Without(q[1..], id)
  {
  }

  lemma {:induction false} FilteredStarters(q: seq<Fetch>, id: Id)
    ensures Starters(q) == Starters(Without(q, id)) + StartersOf(q, id)
  {
    if q != [] {
      FilteredStarters(q[1..], id);
      WithoutFirst(q, id);
    }
  }

  lemma {:induction false} Extracted(q: seq<Fetch>, i: nat, high: bool)
    requires i < |q| && Distinct(q) && AllIn(q, high)
    ensures var r := q[..i] + q[i + 1..];
            && Ids(r) == Ids(q) - {q[i].partId} && q[i].partId in Ids(q) && q[i].high == high
            && Distinct(r) && AllIn(r, high)
  {
    hide Place;
    var r := q[..i] + q[i + 1..];
    if i == 0 {
      assert r == q[1..];
    } else {
      Extracted(q[1..], i - 1, high);
      assert r[0] == q[0] && r[1..] == q[1..][..i - 1] + q[1..][i..];
    }
  }

  lemma {:induction false} ExtractedStarters(q: seq<Fetch>, i: nat)
    requires i < |q|
    ensures Starters(q) == Starters(q[..i] + q[i + 1..]) + multiset{q[i].starter}
  {
    hide Starters;
    var r := q[..i] + q[i + 1..];
    HeadStarter(q);
    if i == 0 {
      assert r == q[1..];
    } else {
      ExtractedStarters(q[1..], i - 1);
      assert r[0] == q[0] && r[1..] == q[1..][..i - 1] + q[1..][i..];
      HeadStarter(r);
    }
  }

  lemma SubmitKeepsClasses(cap: nat, s: State, op: Op)
    requires op.Submit? && Classes(s) && Flags(s)
    ensures Classes(Next(cap, s, op)) && Flags(Next(cap, s, op))
  {
    hide Ids, Distinct, AllIn, Starters, Without, StartersOf, Place, Has;
    Appended(if op.high then s.high else s.normal, Fetch(op.id, op.starter, op.high));
  }

  lemma SubmitKeepsAccount(cap: nat, s: State, op: Op)
    requires op.Submit? && Accounted(s)
    ensures Accounted(Next(cap, s, op))
  {
    hide Ids, Distinct, AllIn, Starters, Without, StartersOf, Place, Has;
    Appended(if op.high then s.high else s.normal, Fetch(op.id, op.starter, op.high));
  }

  lemma SubmitKeepsInv(cap: nat, s: State, id: Id, starter: Starter, high: bool)
    requires Inv(cap, s)
    ensures Inv(cap, Next(cap, s, Submit(id, starter, high)))
  {
    hide Classes, Flags, Accounted;
    SubmitKeepsClasses(cap, s, Submit(id, starter, high));
    SubmitKeepsAccount(cap, s, Submit(id, starter, high));
  }

  lemma PromoteKeepsInv(cap: nat, s: State, id: Id)
    requires Inv(cap, s)
    ensures Inv(cap, Next(cap, s, Promote(id)))
  {
    hide Ids, Distinct, AllIn, Starters, Without, StartersOf;
    var i := Place(s.normal, id);
    if i < |s.normal| {
      Extracted(s.normal, i, false);
      ExtractedStarters(s.normal, i);
      Appended(s.high, Raised(s.normal[i]));
    }
  }

  lemma DropKeepsAccount(s: State, id: Id)
    requires Accounted(s)
    ensures Accounted(Drop(s, id))
  {
    hide Starters, StartersOf, Without;
    FilteredStarters(s.high, id);
    FilteredStarters(s.normal, id);
  }

  lemma DropKeepsInv(cap: nat, s: State, id: Id)
    requires Inv(cap, s)
    ensures Inv(cap, Drop(s, id))
  {
    hide Ids, Distinct, AllIn, Accounted, Place, Has;
    DropKeepsAccount(s, id);
    Filtered(s.high, id, true);
    Filtered(s.normal, id, false);
  }

  /** A waiting starter moves to those that were run. */
  lemma AccountMoves(started: seq<Starter>, x: Starter, waiting: multiset<Starter>, rest: multiset<Starter>,
                     others: multiset<Starter>)
    requires waiting == multiset{x} + rest
    ensures multiset(started) + waiting + others == multiset(started + [x]) + rest + others
  {
    assert multiset(started + [x]) == multiset(started) + multiset{x};
  }

  lemma FinishKeepsAccount(cap: nat, s: State)
    requires Accounted(s)
    ensures Accounted(Next(cap, s, Finish))
  {
    hide Starters;
    var q := if s.high != [] then s.high else s.normal;
    if q != [] {
      var other := if s.high != [] then Starters(s.normal) else Starters(s.high);
      HeadStarter(q);
      AccountMoves(s.started, q[0].starter, Starters(q), Starters(q[1..]), other + s.dropped);
      AccountOf(s, if s.high != [] then s.high else s.normal, s.high != []);
      AccountOf(Next(cap, s, Finish), q[1..], s.high != []);
    }
  }

  lemma HeadStarter(q: seq<Fetch>)
    requires q != []
    ensures Starters(q) == multiset{q[0].starter} + Starters(q[1..])
  {
  }

  /** The account with one of the two queues set apart. */
  lemma AccountOf(s: State, q: seq<Fetch>, high: bool)
    requires q == if high then s.high else s.normal
    ensures var other := if high then Starters(s.normal) else Starters(s.high);
            Accounted(s) <==> s.accepted == multiset(s.started) + Starters(q) + (other + s.dropped)
  {
    hide Starters;
  }

  lemma FinishKeepsClasses(cap: nat, s: State)
    requires Classes(s) && Flags(s)
    ensures Classes(Next(cap, s, Finish)) && Flags(Next(cap, s, Finish))
  {
    hide Ids, Distinct, AllIn, Accounted, Place, Has, Without, StartersOf;
    var fromHigh := s.high != [];
    var q := if fromHigh then s.high else s.normal;
    if q != [] {
      Extracted(q, 0, fromHigh);
      assert q[..0] + q[0 + 1..] == q[1..];
    }
  }

  lemma FinishKeepsInv(cap: nat, s: State)
    requires Inv(cap, s) && CanDo(s, Finish)
    ensures Inv(cap, Next(cap, s, Finish))
  {
    hide Accounted, Classes, Flags;
    FinishKeepsAccount(cap, s);
    FinishKeepsClasses(cap, s);
  }

  /** Every operation keeps the permits, the two classes, the queued flags and the account of
      starters; a finish needs a task that was started and has not finished. */
  lemma StepKeepsInv(cap: nat, s: State, op: Op)
    requires Inv(cap, s) && CanDo(s, op)
    ensures Inv(cap, Next(cap, s, op))
  {
    hide Inv, Drop, Start;
    match op
    case Submit(id, starter, high) => SubmitKeepsInv(cap, s, id, starter, high);
    case Promote(id) => PromoteKeepsInv(cap, s, id);
    case Cancel(id) => DropKeepsInv(cap, s, id);
    case Remove(id) => DropKeepsInv(cap, s, id);
    case Finish => FinishKeepsInv(cap, s);
  }

  lemma {:induction false} RunKeepsInv(cap: nat, s: State, ops: seq<Op>)
    requires Inv(cap, s) && CanRun(cap, s, ops)
    ensures Inv(cap, Run(cap, s, ops))
    decreases |ops|
  {
    if ops != [] {
      StepKeepsInv(cap, s, ops[0]);
      RunKeepsInv(cap, Next(cap, s, ops[0]), ops[1..]);
    }
  }

  // ---- What each operation does ----------------------------------------------------------------------------

  /** A submission of a part that has a slot is dropped. Any other gets a slot: it starts right away if a
      permit is free, else it waits behind all fetches of its class, a high one ahead of all normal ones. */
  lemma SubmitJoins(cap: nat, s: State, id: Id, starter: Starter, high: bool)
    requires Inv(cap, s)
    ensures var t := Next(cap, s, Submit(id, starter, high));
            if id in s.slots then t == s
            else if s.running < cap then
              && t.slots == s.slots[id := false] && t.started == s.started + [starter]
              && t.running == s.running + 1 && t.high == s.high && t.normal == s.normal && !Waits(t, id)
            else
              && t.slots == s.slots[id := true] && t.started == s.started && t.running == s.running
              && Waits(t, id) && Entry(t, id) == Fetch(id, starter, high)
              && Ahead(t, id) == |s.high| + if high then 0 else |s.normal|
  {
    hide Place, Ids, Distinct, AllIn, Starters, Accounted;
    var f := Fetch(id, starter, high);
    assert id !in s.slots ==> !Waits(s, id);
    PlaceInConcat(s.high, [f], id);
    PlaceInConcat(s.normal, [f], id);
    LonePlace(f, id);
  }

  /** A promotion takes a waiting normal fetch behind all high ones, and changes nothing else. */
  lemma PromoteJoins(cap: nat, s: State, id: Id)
    requires Inv(cap, s)
    ensures var t := Next(cap, s, Promote(id));
            if Has(s.normal, id) then
              && t.slots == s.slots && t.running == s.running && t.started == s.started
              && Waits(t, id) && Entry(t, id) == Fetch(id, Entry(s, id).starter, true) && Ahead(t, id) == |s.high|
              && |t.normal| == |s.normal| - 1
            else t == s
  {
    hide Place, Ids, Distinct, AllIn, Starters, Accounted;
    var i := Place(s.normal, id);
    if i < |s.normal| {
      var f := Raised(s.normal[i]);
      assert !Has(s.high, id);
      PlaceInConcat(s.high, [f], id);
      LonePlace(f, id);
    }
  }

  /** A removal forgets the part, waiting or not, and no other; a cancellation does so exactly if the part
      waits. Neither gives a permit back. */
  lemma DropForgets(cap: nat, s: State, id: Id, other: Id)
    requires Inv(cap, s) && other != id
    ensures var t := Next(cap, s, Remove(id));
            && Next(cap, s, Cancel(id)) == (if Waits(s, id) then t else s)
            && id !in t.slots && !Waits(t, id) && t.running == s.running && t.started == s.started
            && (other in t.slots <==> other in s.slots) && (other in s.slots ==> t.slots[other] == s.slots[other])
            && (Waits(t, other) <==> Waits(s, other))
            && (Waits(s, other) ==> Entry(t, other) == Entry(s, other))
  {
    hide Place, Distinct, AllIn, Starters, Accounted, StartersOf, Without;
    Filtered(s.high, id, true);
    Filtered(s.normal, id, false);
    WithoutPlace(s.high, other, id);
    WithoutPlace(s.normal, other, id);
  }

  /** A finish gives its permit to the fetch with nothing ahead, whose slot then reads started; if nothing
      waits, the permit is free again. */
  lemma FinishStartsTheFirst(cap: nat, s: State, id: Id)
    requires Inv(cap, s) && CanDo(s, Finish)
    ensures var t := Next(cap, s, Finish);
            && t.finished == s.finished + 1
            && (Waits(s, id) && Ahead(s, id) == 0 ==>
                  && t.started == s.started + [Entry(s, id).starter] && t.running == s.running
                  && !Waits(t, id) && t.slots == s.slots[id := false])
            && (s.high == [] && s.normal == [] ==>
                  t.started == s.started && t.running == s.running - 1 && t.slots == s.slots)
  {
    hide Starters, Accounted, AllIn;
    FinishKeepsInv(cap, s);
    if Waits(s, id) && Ahead(s, id) == 0 {
      var q := if s.high != [] then s.high else s.normal;
      assert q[0].partId == id;
      assert id in s.slots;
      assert !Has(q[1..], id);
    }
  }

  // ---- When a waiting fetch starts ------------------------------------------------------------------------

  predicate Waits(s: State, id: Id) { Has(s.high, id) || Has(s.normal, id) }

  function Entry(s: State, id: Id): Fetch
    requires Waits(s, id)
  {
    if Has(s.high, id) then s.high[Place(s.high, id)] else s.normal[Place(s.normal, id)]
  }

  /** How many fetches start before this one. */
  function Ahead(s: State, id: Id): nat
    requires Waits(s, id)
  {
    if Has(s.high, id) then Place(s.high, id) else |s.high| + Place(s.normal, id)
  }

  /** Whether the operation may put a fetch in front of a waiting one: only joining the high class
      does, and only in front of normal ones. */
  predicate Overtakes(op: Op, high: bool) {
    !high && (op.Promote? || (op.Submit? && op.high))
  }

  lemma {:induction false} WithoutPlace(q: seq<Fetch>, id: Id, gone: Id)
    requires id != gone
    ensures Has(q, id) <==> Has(Without(q, gone), id)
    ensures Has(q, id) ==>
              Place(Without(q, gone), id) <= Place(q, id)
              && Without(q, gone)[Place(Without(q, gone), id)] == q[Place(q, id)]
  {
    if q != [] {
      WithoutPlace(q[1..], id, gone);
      var r := Without(q, gone);
      if q[0].partId != gone {
        assert r[0] == q[0] && r[1..] == Without(q[1..], gone);
      }
    }
  }

  lemma {:induction false} PlaceInConcat(a: seq<Fetch>, b: seq<Fetch>, id: Id)
    ensures Has(a, id) ==> Place(a + b, id) == Place(a, id)
    ensures !Has(a, id) ==> Place(a + b, id) == |a| + Place(b, id)
  {
    if a == [] {
      assert a + b == b;
    } else {
      assert (a + b)[1..] == a[1..] + b;
      PlaceInConcat(a[1..], b, id);
    }
  }

  lemma {:induction false} PlaceAfterRemoval(q: seq<Fetch>, i: nat, id: Id)
    requires i < |q| && Has(q, id) && Place(q, id) != i
    ensures var r := q[..i] + q[i + 1..];
            Has(r, id) && Place(r, id) <= Place(q, id) && r[Place(r, id)] == q[Place(q, id)]
  {
    var r := q[..i] + q[i + 1..];
    if i == 0 {
      assert r == q[1..];
    } else {
      assert r[0] == q[0] && r[1..] == q[1..][..i - 1] + q[1..][i..];
      if q[0].partId != id {
        PlaceAfterRemoval(q[1..], i - 1, id);
      }
    }
  }

  /** What an operation leaves of a waiting fetch: it has not moved back, except behind one that
      joined the high class; a finish brings it forward, and starts it once nothing is ahead. */
  ghost predicate MovesUp(s: State, t: State, op: Op, id: Id)
    requires Waits(s, id)
  {
    var e := Entry(s, id);
    if op.Finish? && Ahead(s, id) == 0 then t.started == s.started + [e.starter]
    else
      && Waits(t, id) && Entry(t, id).starter == e.starter && (e.high ==> Entry(t, id).high)
      && Ahead(t, id) + (if op.Finish? then 1 else 0) <= Ahead(s, id) + (if Overtakes(op, e.high) then 1 else 0)
  }

  lemma {:induction false} ClassOf(q: seq<Fetch>, high: bool, i: nat)
    requires AllIn(q, high) && i < |q|
    ensures q[i].high == high
  {
    if i > 0 {
      ClassOf(q[1..], high, i - 1);
    }
  }

  lemma EntryClass(s: State, id: Id)
    requires Classes(s) && Waits(s, id)
    ensures Entry(s, id).high == Has(s.high, id)
  {
    if Has(s.high, id) {
      ClassOf(s.high, true, Place(s.high, id));
    } else {
      ClassOf(s.normal, false, Place(s.normal, id));
    }
  }

  lemma SubmitMovesUp(cap: nat, s: State, op: Op, id: Id)
    requires Inv(cap, s) && Waits(s, id) && op.Submit?
    ensures MovesUp(s, Next(cap, s, op), op, id)
  {
    hide Place, Ids, Distinct, AllIn, Starters;
    var f := Fetch(op.id, op.starter, op.high);
    PlaceInConcat(s.high, [f], id);
    PlaceInConcat(s.normal, [f], id);
    EntryClass(s, id);
    if op.id !in s.slots {
      assert op.id != id;
      LonePlace(f, id);
    }
  }

  lemma LonePlace(f: Fetch, id: Id)
    ensures Has([f], id) <==> f.partId == id
    ensures f.partId == id ==> Place([f], id) == 0
  {
  }

  lemma PromoteMovesUp(cap: nat, s: State, op: Op, id: Id)
    requires Inv(cap, s) && Waits(s, id) && op.Promote?
    ensures MovesUp(s, Next(cap, s, op), op, id)
  {
    hide Place, Ids, Distinct, AllIn, Starters;
    EntryClass(s, id);
    var i := Place(s.normal, op.id);
    if i < |s.normal| {
      var f := Raised(s.normal[i]);
      PlaceInConcat(s.high, [f], id);
      LonePlace(f, id);
      if op.id != id && !Has(s.high, id) {
        PlaceAfterRemoval(s.normal, i, id);
      }
    }
  }

  lemma DropMovesUp(s: State, op: Op, id: Id)
    requires Classes(s) && Waits(s, id) && (op.Cancel? || op.Remove?) && op.id != id
    ensures MovesUp(s, Drop(s, op.id), op, id) && MovesUp(s, s, op, id)
  {
    hide Place, Ids, Distinct, AllIn, Starters, StartersOf, Without;
    WithoutPlace(s.high, id, op.id);
    WithoutPlace(s.normal, id, op.id);
    Shrinks(s.high, op.id);
  }

  lemma {:induction false} Shrinks(q: seq<Fetch>, id: Id)
    ensures |Without(q, id)| <= |q|
  {
    if q != [] { Shrinks(q[1..], id); }
  }

  lemma TailPlace(q: seq<Fetch>, id: Id)
    requires Has(q, id)
    ensures Place(q, id) == 0 ==> q[0].partId == id
    ensures Place(q, id) > 0 ==> Has(q[1..], id) && Place(q[1..], id) == Place(q, id) - 1
  {
  }

  lemma FinishMovesUp(cap: nat, s: State, id: Id)
    requires Inv(cap, s) && Waits(s, id)
    ensures MovesUp(s, Next(cap, s, Finish), Finish, id)
  {
    hide Place, Ids, Distinct, AllIn, Starters;
    EntryClass(s, id);
    var q := if s.high != [] then s.high else s.normal;
    if Has(q, id) {
      TailPlace(q, id);
      if Place(q, id) > 0 {
        assert q[1..][Place(q[1..], id)] == q[Place(q, id)];
      }
    } else {
      NotInTail(s.high, id);
    }
  }

  lemma NotInTail(q: seq<Fetch>, id: Id)
    requires q != [] && !Has(q, id)
    ensures !Has(q[1..], id)
  {
  }

  lemma StepMovesUp(cap: nat, s: State, op: Op, id: Id)
    requires Inv(cap, s) && Waits(s, id) && op != Cancel(id) && op != Remove(id)
    ensures MovesUp(s, Next(cap, s, op), op, id)
  {
    hide MovesUp, Waits, Drop, Start, Permits, Classes, Flags, Accounted, Has;
    match op
    case Submit(_, _, _) => SubmitMovesUp(cap, s, op, id);
    case Promote(_) => PromoteMovesUp(cap, s, op, id);
    case Cancel(_) => DropMovesUp(s, op, id);
    case Remove(_) => DropMovesUp(s, op, id);
    case Finish => FinishMovesUp(cap, s, id);
  }

  function Finishes(ops: seq<Op>): nat {
    if ops == [] then 0 else (if ops[0].Finish? then 1 else 0) + Finishes(ops[1..])
  }

  /** The operations that may put another fetch in front of one of the given class. */
  function Overtakings(ops: seq<Op>, high: bool): nat {
    if ops == [] then 0 else (if Overtakes(ops[0], high) then 1 else 0) + Overtakings(ops[1..], high)
  }

  lemma {:induction false} StartedGrows(cap: nat, s: State, ops: seq<Op>)
    ensures s.started <= Run(cap, s, ops).started
    decreases |ops|
  {
    if ops != [] {
      StartedGrows(cap, Next(cap, s, ops[0]), ops[1..]);
    }
  }

  lemma {:induction false} OvertakingsMonotone(ops: seq<Op>, high: bool)
    ensures Overtakings(ops, true) == 0 && Overtakings(ops, high) <= Overtakings(ops, false)
  {
    if ops != [] {
      OvertakingsMonotone(ops[1..], high);
    }
  }

  /** Whatever else happens, a waiting fetch that is not cancelled or removed is started as soon as
      more tasks have finished than were ahead of it or joined the high class in front of it; one
      in the high class is never overtaken. */
  lemma {:induction false} EveryFetchStarts(cap: nat, s: State, ops: seq<Op>, id: Id)
    requires Inv(cap, s) && CanRun(cap, s, ops) && Waits(s, id)
    requires Cancel(id) !in ops && Remove(id) !in ops
    requires Finishes(ops) > Ahead(s, id) + Overtakings(ops, Entry(s, id).high)
    ensures s.started <= Run(cap, s, ops).started
    ensures Entry(s, id).starter in Run(cap, s, ops).started[|s.started|..]
    ensures Overtakings(ops, true) == 0
    decreases |ops|
  {
    hide Inv, Next, Waits, Entry, Ahead, Overtakes;
    var t, rest := Next(cap, s, ops[0]), ops[1..];
    OvertakingsMonotone(ops, Entry(s, id).high);
    StepMovesUp(cap, s, ops[0], id);
    StepKeepsInv(cap, s, ops[0]);
    StartedGrows(cap, t, rest);
    StartedStep(cap, s, ops[0]);
    if ops[0].Finish? && Ahead(s, id) == 0 {
      assert t.started[|s.started|] == Entry(s, id).starter;
      assert Run(cap, s, ops).started[|s.started|..][0] == Entry(s, id).starter;
    } else {
      OvertakingsMonotone(rest, Entry(t, id).high);
      OvertakingsMonotone(rest, Entry(s, id).high);
      EveryFetchStarts(cap, t, rest, id);
      var started := Run(cap, t, rest).started;
      var k :| 0 <= k < |started[|t.started|..]| && started[|t.started|..][k] == Entry(s, id).starter;
      assert started[|s.started|..][k + |t.started| - |s.started|] == Entry(s, id).starter;
    }
  }

  lemma StartedStep(cap: nat, s: State, op: Op)
    ensures s.started <= Next(cap, s, op).started
  {
  }

  // ---- The deque ------------------------------------------------------------------------------------------

  lemma {:induction false} WithoutConcat(a: seq<Fetch>, b: seq<Fetch>, id: Id)
    ensures Without(a + b, id) == Without(a, id) + Without(b, id)
  {
    if a == [] {
      assert a + b == b;
    } else {
      assert (a + b)[1..] == a[1..] + b;
      WithoutConcat(a[1..], b, id);
    }
  }

  lemma {:induction false} WithoutKeepsLength(q: seq<Fetch>, id: Id)
    ensures |Without(q, id)| <= |q|
    ensures |Without(q, id)| == |q| <==> !Has(q, id)
  {
    if q != [] { WithoutKeepsLength(q[1..], id); }
  }

  function InsertAt(q: seq<Fetch>, i: nat, f: Fetch): seq<Fetch>
    requires i <= |q|
  {
    q[..i] + [f] + q[i..]
  }

  function RemoveAt(q: seq<Fetch>, i: nat): seq<Fetch>
    requires i < |q|
  {
    q[..i] + q[i + 1..]
  }

  lemma InsertedBetween(a: seq<Fetch>, b: seq<Fetch>, f: Fetch)
    ensures InsertAt(a + b, |a|, f) == (a + [f]) + b
  {
  }

  lemma RemovedFromSecond(a: seq<Fetch>, b: seq<Fetch>, i: nat)
    requires i < |b|
    ensures (a + b)[|a| + i] == b[i] && RemoveAt(a + b, |a| + i) == a + RemoveAt(b, i)
  {
  }

  /** What a submission does, as the deque sees it. */
  lemma SubmittedDeque(cap: nat, s: State, id: Id, starter: Starter, high: bool)
    ensures var t, f := Next(cap, s, Submit(id, starter, high)), Fetch(id, starter, high);
            if id in s.slots then t == s
            else if s.running < cap then
              && t.slots == s.slots[id := false] && t.running == s.running + 1
              && t.high + t.normal == s.high + s.normal && t.started == s.started + [starter]
            else
              && t.slots == s.slots[id := true] && t.running == s.running && t.started == s.started
              && t.high + t.normal ==
                 if high then InsertAt(s.high + s.normal, |s.high|, f) else (s.high + s.normal) + [f]
  {
    InsertedBetween(s.high, s.normal, Fetch(id, starter, high));
    assert (s.high + s.normal) + [Fetch(id, starter, high)] == s.high + (s.normal + [Fetch(id, starter, high)]);
  }

  /** What promoting a normal entry does to the deque, in the two moves it is made of. */
  lemma PromotedDeque(cap: nat, s: State, id: Id)
    requires Place(s.normal, id) < |s.normal|
    ensures var i, q, t := Place(s.normal, id), s.high + s.normal, Next(cap, s, Op.Promote(id));
            var rest := RemoveAt(q, |s.high| + i);
            && q[|s.high| + i] == s.normal[i] && rest == s.high + t.normal
            && InsertAt(rest, |s.high|, Raised(s.normal[i])) == t.high + t.normal
  {
    hide Place, InsertAt;
    var i := Place(s.normal, id);
    RemovedFromSecond(s.high, s.normal, i);
    InsertedBetween(s.high, RemoveAt(s.normal, i), Raised(s.normal[i]));
  }

  /** A promotion changes nothing but the queues. */
  lemma PromotionMoves(cap: nat, s: State, id: Id)
    ensures var t := Next(cap, s, Op.Promote(id));
            && t.slots == s.slots && t.running == s.running && t.started == s.started
            && (Place(s.normal, id) == |s.normal| ==> t == s)
  {
    hide Place;
  }

  class Registry {
    const cap: nat
    var slots: map<Id, bool>
    var queue: seq<Fetch>
    var running: nat
    ghost var st: State

    /** The deque is the high queue followed by the normal one. */
    ghost predicate Valid()
      reads this
    {
      && Inv(cap, st)
      && slots == st.slots && running == st.running && queue == st.high + st.normal
    }

    constructor (c: nat)
      ensures Valid() && cap == (if c < 1 then 1 else c) && st == INIT
    {
      cap := if c < 1 then 1 else c;
      slots, queue, running, st := map[], [], 0, INIT;
    }

    /** The end of the run of high entries at the front. */
    method HighSegmentEnd(q: seq<Fetch>, ghost high: seq<Fetch>, ghost normal: seq<Fetch>) returns (at: nat)
      requires q == high + normal && AllIn(high, true) && AllIn(normal, false)
      ensures at == |high|
    {
      hide AllIn;
      at := 0;
      while at < |q| && q[at].high
        invariant at <= |high|
      {
        if at == |high| { ClassOf(normal, false, 0); }
        at := at + 1;
      }
      if at < |high| { ClassOf(high, true, at); }
    }

    /** Register a fetch, unless the part already has a slot. `runNow` is the starter to run once the
        lock is released. */
    method SubmitWithPriority(id: Id, starter: Starter, high: bool) returns (runNow: Option<Starter>)
      requires Valid()
      modifies this
      ensures Valid() && st == Next(cap, old(st), Submit(id, starter, high))
      ensures runNow == if id !in old(slots) && old(running) < cap then Some(starter) else None
      ensures st.started == old(st.started) + (if runNow.Some? then [starter] else [])
    {
      hide Inv, Starters, Place, Ids, AllIn, Distinct, Next, InsertAt;
      StepKeepsInv(cap, st, Submit(id, starter, high));
      InvClasses(cap, st);
      SubmittedDeque(cap, st, id, starter, high);
      runNow := None;
      if id !in slots {
        if running < cap {
          slots := slots[id := false];
          running := running + 1;
          runNow := Some(starter);
        } else {
          slots := slots[id := true];
          var entry := Fetch(id, starter, high);
          if high {
            var at := HighSegmentEnd(queue, st.high, st.normal);
            queue := InsertAt(queue, at, entry);
          } else {
            queue := queue + [entry];
          }
        }
      }
      st := Next(cap, st, Submit(id, starter, high));
    }

    /** Move a waiting normal entry to the end of the high class; true if one moved. */
    method Promote(id: Id) returns (moved: bool)
      requires Valid()
      modifies this`queue, this`st
      ensures Valid() && st == Next(cap, old(st), Op.Promote(id))
      ensures moved <==> Place(old(st).normal, id) < |old(st).normal|
      ensures st.started == old(st.started)
    {
      hide Inv, Starters, Place, Ids, Distinct, AllIn, Has, Next, InsertAt, RemoveAt;
      ghost var before := st;
      StepKeepsInv(cap, before, Op.Promote(id));
      InvClasses(cap, before);
      PromotedClasses(cap, before, id);
      PromotionMoves(cap, before, id);
      WhereWaiting(before.high, before.normal, id);
      st := Next(cap, before, Op.Promote(id));
      var pos := Place(queue, id);
      if pos == |queue| { return false; }
      if queue[pos].high { return false; }
      PromotedDeque(cap, before, id);
      var entry := queue[pos].(high := true);
      queue := RemoveAt(queue, pos);
      var at := HighSegmentEnd(queue, before.high, st.normal);
      queue := InsertAt(queue, at, entry);
      moved := true;
    }

    /** A started task finished: release its permit and start the next waiting fetch. */
    method TaskFinished() returns (next: Option<Starter>)
      requires Valid() && CanDo(st, Finish)
      modifies this
      ensures Valid() && st == Next(cap, old(st), Finish)
      ensures next == if old(queue) == [] then None else Some(old(queue)[0].starter)
      ensures st.started == old(st.started) + (if next.Some? then [next.value] else [])
    {
      hide Inv, Starters, Place, Ids, AllIn, Distinct;
      StepKeepsInv(cap, st, Finish);
      WaitingMeansBusy(cap, st);
      running := if running > 0 then running - 1 else 0;
      next := None;
      if queue != [] {
        var q := queue[0];
        queue := queue[1..];
        running := running + 1;
        if q.partId in slots { slots := slots[q.partId := false]; }
        next := Some(q.starter);
      }
      st := Next(cap, st, Finish);
    }

    /** Forget a part that is still waiting; true if it was. A running or finished one stays. */
    method CancelIfQueued(id: Id) returns (cancelled: bool)
      requires Valid()
      modifies this`slots, this`queue, this`st
      ensures Valid() && st == Next(cap, old(st), Cancel(id))
      ensures cancelled <==> Waits(old(st), id)
      ensures st.started == old(st.started) && (cancelled ==> !Waits(st, id) && id !in slots)
    {
      hide Inv, Starters, Place, Ids, Without;
      StepKeepsInv(cap, st, Cancel(id));
      WithoutConcat(st.high, st.normal, id);
      PlaceInConcat(st.high, st.normal, id);
      WithoutKeepsLength(queue, id);
      GoneFrom(st.high, id);
      GoneFrom(st.normal, id);
      var before := |queue|;
      queue := Without(queue, id);
      cancelled := |queue| != before;
      if cancelled {
        slots := slots - {id};
      } else {
        NothingWithout(old(queue), id);
      }
      st := Next(cap, st, Cancel(id));
    }

    /** Drop the slot, and the entry if it was waiting. */
    method Remove(id: Id)
      requires Valid()
      modifies this`slots, this`queue, this`st
      ensures Valid() && st == Next(cap, old(st), Op.Remove(id))
      ensures st.started == old(st.started) && !Waits(st, id) && id !in slots
    {
      hide Inv, Starters, Place, Ids, Without;
      StepKeepsInv(cap, st, Op.Remove(id));
      WithoutConcat(st.high, st.normal, id);
      GoneFrom(st.high, id);
      GoneFrom(st.normal, id);
      slots := slots - {id};
      queue := Without(queue, id);
      st := Next(cap, st, Op.Remove(id));
    }
  }

  lemma InvClasses(cap: nat, s: State)
    requires Inv(cap, s)
    ensures AllIn(s.high, true) && AllIn(s.normal, false) && Ids(s.high) !! Ids(s.normal)
  {
  }

  lemma PromotedClasses(cap: nat, s: State, id: Id)
    requires Inv(cap, s)
    ensures AllIn(Next(cap, s, Op.Promote(id)).normal, false)
  {
    PromoteKeepsInv(cap, s, id);
  }

  lemma WaitingMeansBusy(cap: nat, s: State)
    requires Inv(cap, s)
    ensures s.high != [] || s.normal != [] ==> s.running > 0
  {
  }

  /** The first entry of a part in the deque, and its class. */
  lemma WhereWaiting(a: seq<Fetch>, b: seq<Fetch>, id: Id)
    requires AllIn(a, true) && AllIn(b, false) && Ids(a) !! Ids(b)
    ensures var pos := Place(a + b, id);
            && (pos < |a + b| && !(a + b)[pos].high ==> pos == |a| + Place(b, id) && Place(b, id) < |b|)
            && (pos < |a + b| && (a + b)[pos].high ==> Place(b, id) == |b|)
            && (pos == |a + b| ==> Place(b, id) == |b|)
  {
    hide Place;
    PlaceInConcat(a, b, id);
    if Has(a, id) {
      ClassOf(a, true, Place(a, id));
    } else if Has(b, id) {
      ClassOf(b, false, Place(b, id));
    }
  }

  lemma {:induction false} GoneFrom(q: seq<Fetch>, id: Id)
    ensures !Has(Without(q, id), id)
  {
    if q != [] {
      GoneFrom(q[1..], id);
      WithoutFirst(q, id);
    }
  }

  lemma {:induction false} NothingWithout(q: seq<Fetch>, id: Id)
    requires !Has(q, id)
    ensures Without(q, id) == q
  {
    if q != [] { NothingWithout(q[1..], id); }
  }
}
