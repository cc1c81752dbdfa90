/**
 * The session stitching shared by both event flushers: screen views are grouped by session id, each view
 * with a successor in its session is written with a duration up to that successor, and the last view of a
 * session is written only when the batch holds that session's `session_end`. The current version skips
 * views without a session id and stamps `__duration_from`; the older one groups them under `''` and does not.
 *
 * Items are addressed by their position in the sorted batch array, because the source writes copies that
 * share the array items' `properties` objects: stamping a copy also stamps the array item.
 */
module SessionStitch {
  import opened Wrappers
  import opened JsonValues
  import opened ListStore
  import opened Events

  type Item = QueueItem<Event>

  const DURATION_FROM: string := "__duration_from"

  predicate IsView(it: Item) {
    it.event.name == SCREEN_VIEW
  }

  /** Whether the grouping takes this item. */
  predicate Grouped(it: Item, skipEmpty: bool) {
    IsView(it) && !(skipEmpty && it.event.sessionId == "")
  }

  datatype Group = Group(sid: string, members: seq<nat>)

  function FindGroup(gs: seq<Group>, sid: string): (r: Option<nat>)
    ensures r.Some? ==> r.value < |gs| && gs[r.value].sid == sid
    ensures r.None? ==> forall i :: 0 <= i < |gs| ==> gs[i].sid != sid
  {
    LastKeyIndex(gs, (g: Group) => g.sid, sid)
  }

  /** `{...acc, [sid]: [...exists, item]}` when the session has a group, `{...acc, [sid]: [item]}` otherwise. */
  function AddToGroup(gs: seq<Group>, sid: string, p: nat): seq<Group> {
    match FindGroup(gs, sid)
    case Some(i) => gs[i := Group(sid, gs[i].members + [p])]
    case None => gs + [Group(sid, [p])]
  }

  /** One step of the grouping `reduce`, over the item at position `n`. */
  function GroupStep(s: seq<Item>, gs: seq<Group>, n: nat, skipEmpty: bool): seq<Group>
    requires n < |s|
  {
    if Grouped(s[n], skipEmpty) then AddToGroup(gs, s[n].event.sessionId, n) else gs
  }

  /** The grouping `reduce` over the first `n` items of the sorted batch. */
  function GroupsUpTo(s: seq<Item>, n: nat, skipEmpty: bool): (gs: seq<Group>)
    requires n <= |s|
    decreases n
  {
    if n == 0 then [] else GroupStep(s, GroupsUpTo(s, n - 1, skipEmpty), n - 1, skipEmpty)
  }

  function Groups(s: seq<Item>, skipEmpty: bool): (gs: seq<Group>)
    ensures AllInRange(gs, |s|)
  {
    GroupsFacts(s, |s|, skipEmpty);
    GroupsUpTo(s, |s|, skipEmpty)
  }

  // ---------------------------------------------------------------------------------------------
  // Reference definitions, by position in the sorted batch

  /** The next screen view of the same session after position `p`, searching from `q`. */
  function NextFrom(s: seq<Item>, p: nat, q: nat): (r: Option<nat>)
    requires p < |s|
    ensures r.Some? ==> q <= r.value < |s| && IsView(s[r.value]) && s[r.value].event.sessionId == s[p].event.sessionId
    ensures r.Some? ==> forall x :: q <= x < r.value ==> !(IsView(s[x]) && s[x].event.sessionId == s[p].event.sessionId)
    ensures r.None? ==> forall x :: q <= x < |s| ==> !(IsView(s[x]) && s[x].event.sessionId == s[p].event.sessionId)
    decreases |s| - q
  {
    if q >= |s| then None
    else if IsView(s[q]) && s[q].event.sessionId == s[p].event.sessionId then Some(q)
    else NextFrom(s, p, q + 1)
  }

  function NextInSession(s: seq<Item>, p: nat): Option<nat>
    requires p < |s|
  {
    NextFrom(s, p, p + 1)
  }

  function EndOf(sid: string): Item -> bool {
    (it: Item) => it.event.name == SESSION_END && it.event.sessionId == sid
  }

  /** `queue.find(item => item.event.name === 'session_end' && item.event.session_id === sessionId)` is truthy. */
  function HasSessionEnd(data: seq<Item>, sid: string): bool {
    First(data, EndOf(sid)).Some?
  }

  /** The array item after `event.properties.__duration_from = nextId` (made through a copy sharing `properties`). */
  function Mark(it: Item, nextId: string): Item {
    it.(event := it.event.(properties := Put(it.event.properties, DURATION_FROM, JStr(nextId))))
  }

  /** The copy `{...item, event: {...item.event, duration}}` that is written for a view with a successor. */
  function Stamp(it: Item, nextId: string, nextAt: int, markFrom: bool): Item {
    var base := if markFrom then Mark(it, nextId) else it;
    base.(event := base.event.(duration := nextAt - it.event.createdAt))
  }

  /** Whether the view at `p` is written: it is grouped and has a successor or its session has ended. */
  predicate ViewWritten(s: seq<Item>, p: nat, skipEmpty: bool)
    requires p < |s|
  {
    Grouped(s[p], skipEmpty) && (NextInSession(s, p).Some? || HasSessionEnd(s, s[p].event.sessionId))
  }

  /** What is written for the view at `p`. */
  function WrittenView(s: seq<Item>, p: nat, markFrom: bool): Item
    requires p < |s|
  {
    match NextInSession(s, p)
    case Some(q) => Stamp(s[p], s[q].event.id, s[q].event.createdAt, markFrom)
    case None => s[p]
  }

  /** The array item at `p` once stitching is over. */
  function FinalItem(s: seq<Item>, p: nat, skipEmpty: bool, markFrom: bool): Item
    requires p < |s|
  {
    if markFrom && Grouped(s[p], skipEmpty) && NextInSession(s, p).Some? then
      Mark(s[p], s[NextInSession(s, p).value].event.id)
    else s[p]
  }

  // ---------------------------------------------------------------------------------------------
  // The stitching loops

  /** The batch array, the items added to the write set so far and their positions in the array. */
  datatype Batch = Batch(data: seq<Item>, written: seq<Item>, from: seq<nat>)

  predicate InRange(members: seq<nat>, n: nat) {
    forall t :: 0 <= t < |members| ==> members[t] < n
  }

  /** One iteration of `forEach((item, index) => ...)` over a session's views. */
  function StitchStep(b: Batch, members: seq<nat>, k: nat, hasEnd: bool, markFrom: bool): (r: Batch)
    requires k < |members| && InRange(members, |b.data|)
    ensures |r.data| == |b.data|
  {
    var p := members[k];
    if k + 1 < |members| then
      var next := b.data[members[k + 1]];
      Batch(if markFrom then b.data[p := Mark(b.data[p], next.event.id)] else b.data,
            b.written + [Stamp(b.data[p], next.event.id, next.event.createdAt, markFrom)],
            b.from + [p])
    else if hasEnd then Batch(b.data, b.written + [b.data[p]], b.from + [p])
    else b
  }

  /** The first `k` iterations over a session's views. */
  function StitchMembers(b: Batch, members: seq<nat>, k: nat, hasEnd: bool, markFrom: bool): (r: Batch)
    requires k <= |members| && InRange(members, |b.data|)
    ensures |r.data| == |b.data|
    decreases k
  {
    if k == 0 then b
    else StitchStep(StitchMembers(b, members, k - 1, hasEnd, markFrom), members, k - 1, hasEnd, markFrom)
  }

  predicate AllInRange(gs: seq<Group>, n: nat) {
    forall i, t :: 0 <= i < |gs| && 0 <= t < |gs[i].members| ==> gs[i].members[t] < n
  }

  /** The first `n` iterations of `for (const [sessionId, screenViews] of Object.entries(grouped))`. */
  function StitchGroups(b: Batch, gs: seq<Group>, n: nat, markFrom: bool): (r: Batch)
    requires n <= |gs| && AllInRange(gs, |b.data|)
    ensures |r.data| == |b.data|
    decreases n
  {
    if n == 0 then b
    else
      var prev := StitchGroups(b, gs, n - 1, markFrom);
      var g := gs[n - 1];
      assert InRange(g.members, |prev.data|);
      StitchMembers(prev, g.members, |g.members|, HasSessionEnd(prev.data, g.sid), markFrom)
  }

  // ---------------------------------------------------------------------------------------------
  // The groups are the sessions

  predicate Increasing(m: seq<nat>) {
    forall t, u :: 0 <= t < u < |m| ==> m[t] < m[u]
  }

  /** The item at `q` is grouped under session `sid`. */
  predicate SameSession(s: seq<Item>, sid: string, q: nat, skipEmpty: bool)
    requires q < |s|
  {
    Grouped(s[q], skipEmpty) && s[q].event.sessionId == sid
  }

  /** No grouped item of session `sid` strictly between positions `lo` and `hi`. */
  predicate NoSameBetween(s: seq<Item>, sid: string, lo: nat, hi: nat, skipEmpty: bool)
    requires hi <= |s|
  {
    forall q {:trigger SameSession(s, sid, q, skipEmpty)} :: lo < q < hi ==> !SameSession(s, sid, q, skipEmpty)
  }

  function Upper(m: seq<nat>, t: nat, n: nat): nat
    requires t < |m|
  {
    if t + 1 < |m| then m[t + 1] else n
  }

  predicate DistinctSids(gs: seq<Group>) {
    forall i, j :: 0 <= i < j < |gs| ==> gs[i].sid != gs[j].sid
  }

  predicate Shaped(gs: seq<Group>) {
    forall i :: 0 <= i < |gs| ==> |gs[i].members| >= 1 && Increasing(gs[i].members)
  }

  /** Every member is a grouped item of its group's session. */
  predicate MembersBelong(s: seq<Item>, gs: seq<Group>, skipEmpty: bool)
    requires AllInRange(gs, |s|)
  {
    forall i, t :: 0 <= i < |gs| && 0 <= t < |gs[i].members| ==>
      Grouped(s[gs[i].members[t]], skipEmpty) && s[gs[i].members[t]].event.sessionId == gs[i].sid
  }

  /** Every grouped item before `n` is a member of its session's group. */
  predicate Covered(s: seq<Item>, gs: seq<Group>, n: nat, skipEmpty: bool)
    requires n <= |s|
  {
    forall p :: 0 <= p < n && Grouped(s[p], skipEmpty) ==>
      exists i :: 0 <= i < |gs| && gs[i].sid == s[p].event.sessionId && p in gs[i].members
  }

  /** Nothing of a session between two consecutive members of its group, or after the last one before `n`. */
  predicate Gapless(s: seq<Item>, gs: seq<Group>, n: nat, skipEmpty: bool)
    requires n <= |s| && AllInRange(gs, n)
  {
    forall i, t {:trigger Upper(gs[i].members, t, n)} :: 0 <= i < |gs| && 0 <= t < |gs[i].members| ==>
      NoSameBetween(s, gs[i].sid, gs[i].members[t], Upper(gs[i].members, t, n), skipEmpty)
  }

  /**
   * After the first `n` items: one group per session id, each listing that session's grouped positions in
   * increasing order, with nothing of the session between two consecutive members or after the last one.
   */
  predicate GroupFacts(s: seq<Item>, gs: seq<Group>, n: nat, skipEmpty: bool)
    requires n <= |s|
  {
    AllInRange(gs, n) && DistinctSids(gs) && Shaped(gs) && MembersBelong(s, gs, skipEmpty) &&
    Covered(s, gs, n, skipEmpty) && Gapless(s, gs, n, skipEmpty)
  }

  lemma SkipFacts(s: seq<Item>, gs: seq<Group>, k: nat, skipEmpty: bool)
    requires 0 < k <= |s| && GroupFacts(s, gs, k - 1, skipEmpty) && !Grouped(s[k - 1], skipEmpty)
    ensures GroupFacts(s, gs, k, skipEmpty)
  {
    assert AllInRange(gs, k);
    assert Covered(s, gs, k, skipEmpty);
    forall i, t | 0 <= i < |gs| && 0 <= t < |gs[i].members|
      ensures NoSameBetween(s, gs[i].sid, gs[i].members[t], Upper(gs[i].members, t, k), skipEmpty)
    {
      assert NoSameBetween(s, gs[i].sid, gs[i].members[t], Upper(gs[i].members, t, k - 1), skipEmpty);
    }
  }

  lemma ExistingShape(s: seq<Item>, gs: seq<Group>, k: nat, skipEmpty: bool, g: nat)
    requires 0 < k <= |s| && GroupFacts(s, gs, k - 1, skipEmpty) && Grouped(s[k - 1], skipEmpty)
    requires g < |gs| && gs[g].sid == s[k - 1].event.sessionId
    ensures var gs' := gs[g := Group(gs[g].sid, gs[g].members + [k - 1])];
      AllInRange(gs', k) && DistinctSids(gs') && Shaped(gs') && MembersBelong(s, gs', skipEmpty)
  {
    var m := gs[g].members;
    var m' := m + [k - 1];
    var gs' := gs[g := Group(gs[g].sid, m')];
    assert AllInRange(gs', k) by {
      forall i, t | 0 <= i < |gs'| && 0 <= t < |gs'[i].members| ensures gs'[i].members[t] < k {
        if i == g && t < |m| { assert m'[t] == m[t]; }
      }
    }
    assert Increasing(m') by {
      forall t, u | 0 <= t < u < |m'| ensures m'[t] < m'[u] {
        if u == |m| { assert m[t] < k - 1; }
      }
    }
    assert MembersBelong(s, gs', skipEmpty) by {
      forall i, t | 0 <= i < |gs'| && 0 <= t < |gs'[i].members|
        ensures Grouped(s[gs'[i].members[t]], skipEmpty) && s[gs'[i].members[t]].event.sessionId == gs'[i].sid
      {
        if i == g && t < |m| {
          assert m'[t] == m[t];
        }
      }
    }
  }

  lemma ExistingCovered(s: seq<Item>, gs: seq<Group>, k: nat, skipEmpty: bool, g: nat)
    requires 0 < k <= |s| && GroupFacts(s, gs, k - 1, skipEmpty) && Grouped(s[k - 1], skipEmpty)
    requires g < |gs| && gs[g].sid == s[k - 1].event.sessionId
    ensures Covered(s, gs[g := Group(gs[g].sid, gs[g].members + [k - 1])], k, skipEmpty)
  {
    var gs' := gs[g := Group(gs[g].sid, gs[g].members + [k - 1])];
    forall p | 0 <= p < k && Grouped(s[p], skipEmpty)
      ensures exists i :: 0 <= i < |gs'| && gs'[i].sid == s[p].event.sessionId && p in gs'[i].members
    {
      if p < k - 1 {
        var i :| 0 <= i < |gs| && gs[i].sid == s[p].event.sessionId && p in gs[i].members;
        assert p in gs'[i].members;
      } else {
        assert p in gs'[g].members;
      }
    }
  }

  lemma ExistingGapless(s: seq<Item>, gs: seq<Group>, k: nat, skipEmpty: bool, g: nat)
    requires 0 < k <= |s| && GroupFacts(s, gs, k - 1, skipEmpty) && Grouped(s[k - 1], skipEmpty)
    requires g < |gs| && gs[g].sid == s[k - 1].event.sessionId
    requires AllInRange(gs[g := Group(gs[g].sid, gs[g].members + [k - 1])], k)
    ensures Gapless(s, gs[g := Group(gs[g].sid, gs[g].members + [k - 1])], k, skipEmpty)
  {
    var sid := s[k - 1].event.sessionId;
    var m := gs[g].members;
    var m' := m + [k - 1];
    var gs' := gs[g := Group(sid, m')];
    forall i, t | 0 <= i < |gs'| && 0 <= t < |gs'[i].members|
      ensures NoSameBetween(s, gs'[i].sid, gs'[i].members[t], Upper(gs'[i].members, t, k), skipEmpty)
    {
      if i == g {
        if t < |m| {
          assert NoSameBetween(s, sid, m[t], Upper(m, t, k - 1), skipEmpty);
          assert m'[t] == m[t];
          if t + 1 < |m| { assert m'[t + 1] == m[t + 1]; }
        }
      } else {
        assert gs'[i] == gs[i];
        assert NoSameBetween(s, gs[i].sid, gs[i].members[t], Upper(gs[i].members, t, k - 1), skipEmpty);
        assert gs[i].sid != sid;
      }
    }
  }

  lemma AddExistingFacts(s: seq<Item>, gs: seq<Group>, k: nat, skipEmpty: bool, g: nat)
    requires 0 < k <= |s| && GroupFacts(s, gs, k - 1, skipEmpty) && Grouped(s[k - 1], skipEmpty)
    requires g < |gs| && gs[g].sid == s[k - 1].event.sessionId
    ensures GroupFacts(s, gs[g := Group(gs[g].sid, gs[g].members + [k - 1])], k, skipEmpty)
  {
    ExistingShape(s, gs, k, skipEmpty, g);
    ExistingCovered(s, gs, k, skipEmpty, g);
    ExistingGapless(s, gs, k, skipEmpty, g);
  }

  lemma NewShape(s: seq<Item>, gs: seq<Group>, k: nat, skipEmpty: bool)
    requires 0 < k <= |s| && GroupFacts(s, gs, k - 1, skipEmpty) && Grouped(s[k - 1], skipEmpty)
    requires forall i :: 0 <= i < |gs| ==> gs[i].sid != s[k - 1].event.sessionId
    ensures var gs' := gs + [Group(s[k - 1].event.sessionId, [k - 1])];
      AllInRange(gs', k) && DistinctSids(gs') && Shaped(gs') && MembersBelong(s, gs', skipEmpty)
  {
    var gs' := gs + [Group(s[k - 1].event.sessionId, [k - 1])];
    assert AllInRange(gs', k) by {
      forall i, t | 0 <= i < |gs'| && 0 <= t < |gs'[i].members| ensures gs'[i].members[t] < k {
        if i < |gs| { assert gs'[i] == gs[i]; }
      }
    }
    assert Shaped(gs') by {
      forall i | 0 <= i < |gs'| ensures |gs'[i].members| >= 1 && Increasing(gs'[i].members) {
        if i < |gs| { assert gs'[i] == gs[i]; }
      }
    }
    assert MembersBelong(s, gs', skipEmpty) by {
      forall i, t | 0 <= i < |gs'| && 0 <= t < |gs'[i].members|
        ensures Grouped(s[gs'[i].members[t]], skipEmpty) && s[gs'[i].members[t]].event.sessionId == gs'[i].sid
      {
        if i < |gs| { assert gs'[i] == gs[i]; }
      }
    }
  }

  lemma NewCovered(s: seq<Item>, gs: seq<Group>, k: nat, skipEmpty: bool)
    requires 0 < k <= |s| && GroupFacts(s, gs, k - 1, skipEmpty) && Grouped(s[k - 1], skipEmpty)
    ensures Covered(s, gs + [Group(s[k - 1].event.sessionId, [k - 1])], k, skipEmpty)
  {
    var gs' := gs + [Group(s[k - 1].event.sessionId, [k - 1])];
    forall p | 0 <= p < k && Grouped(s[p], skipEmpty)
      ensures exists i :: 0 <= i < |gs'| && gs'[i].sid == s[p].event.sessionId && p in gs'[i].members
    {
      if p < k - 1 {
        var i :| 0 <= i < |gs| && gs[i].sid == s[p].event.sessionId && p in gs[i].members;
        assert gs'[i] == gs[i];
      } else {
        assert p in gs'[|gs|].members;
      }
    }
  }

  lemma NewGapless(s: seq<Item>, gs: seq<Group>, k: nat, skipEmpty: bool)
    requires 0 < k <= |s| && GroupFacts(s, gs, k - 1, skipEmpty) && Grouped(s[k - 1], skipEmpty)
    requires forall i :: 0 <= i < |gs| ==> gs[i].sid != s[k - 1].event.sessionId
    requires AllInRange(gs + [Group(s[k - 1].event.sessionId, [k - 1])], k)
    ensures Gapless(s, gs + [Group(s[k - 1].event.sessionId, [k - 1])], k, skipEmpty)
  {
    var gs' := gs + [Group(s[k - 1].event.sessionId, [k - 1])];
    forall i, t | 0 <= i < |gs'| && 0 <= t < |gs'[i].members|
      ensures NoSameBetween(s, gs'[i].sid, gs'[i].members[t], Upper(gs'[i].members, t, k), skipEmpty)
    {
      if i < |gs| {
        assert gs'[i] == gs[i];
        assert NoSameBetween(s, gs[i].sid, gs[i].members[t], Upper(gs[i].members, t, k - 1), skipEmpty);
      }
    }
  }

  lemma AddNewFacts(s: seq<Item>, gs: seq<Group>, k: nat, skipEmpty: bool)
    requires 0 < k <= |s| && GroupFacts(s, gs, k - 1, skipEmpty) && Grouped(s[k - 1], skipEmpty)
    requires forall i :: 0 <= i < |gs| ==> gs[i].sid != s[k - 1].event.sessionId
    ensures GroupFacts(s, gs + [Group(s[k - 1].event.sessionId, [k - 1])], k, skipEmpty)
  {
    NewShape(s, gs, k, skipEmpty);
    NewCovered(s, gs, k, skipEmpty);
    NewGapless(s, gs, k, skipEmpty);
  }

  /** One step of the grouping `reduce` keeps the facts. */
  lemma StepFacts(s: seq<Item>, k: nat, skipEmpty: bool, gs: seq<Group>)
    requires 0 < k <= |s| && GroupFacts(s, gs, k - 1, skipEmpty)
    ensures GroupFacts(s, GroupStep(s, gs, k - 1, skipEmpty), k, skipEmpty)
  {
    if Grouped(s[k - 1], skipEmpty) {
      match FindGroup(gs, s[k - 1].event.sessionId)
      case Some(g) => AddExistingFacts(s, gs, k, skipEmpty, g);
      case None => AddNewFacts(s, gs, k, skipEmpty);
    } else {
      SkipFacts(s, gs, k, skipEmpty);
    }
  }

  lemma {:induction false} GroupsFacts(s: seq<Item>, n: nat, skipEmpty: bool)
    requires n <= |s|
    ensures GroupFacts(s, GroupsUpTo(s, n, skipEmpty), n, skipEmpty)
    decreases n
  {
    if n > 0 {
      GroupsFacts(s, n - 1, skipEmpty);
      StepFacts(s, n, skipEmpty, GroupsUpTo(s, n - 1, skipEmpty));
    } else {
      assert GroupsUpTo(s, 0, skipEmpty) == [];
    }
  }

  // ---------------------------------------------------------------------------------------------
  // Consecutive members are consecutive views of the session

  lemma NextFromIs(s: seq<Item>, p: nat, q: nat, r: nat)
    requires p < |s| && q <= r < |s| && IsView(s[r]) && s[r].event.sessionId == s[p].event.sessionId
    requires forall x :: q <= x < r ==> !(IsView(s[x]) && s[x].event.sessionId == s[p].event.sessionId)
    ensures NextFrom(s, p, q) == Some(r)
  {
  }

  lemma NextFromNone(s: seq<Item>, p: nat, q: nat)
    requires p < |s|
    requires forall x :: q <= x < |s| ==> !(IsView(s[x]) && s[x].event.sessionId == s[p].event.sessionId)
    ensures NextFrom(s, p, q) == None
  {
  }

  /** What a session's group tells about its members. */
  predicate SessionMembers(s: seq<Item>, sid: string, m: seq<nat>, skipEmpty: bool) {
    InRange(m, |s|) && Increasing(m) &&
    (forall t :: 0 <= t < |m| ==> Grouped(s[m[t]], skipEmpty) && s[m[t]].event.sessionId == sid) &&
    (forall t {:trigger NextInSession(s, m[t])} :: 0 <= t < |m| ==>
      NextInSession(s, m[t]) == if t + 1 < |m| then Some(m[t + 1]) else None)
  }

  /** In a session's group, the next view of the session after a member is the next member. */
  lemma MemberNext(s: seq<Item>, gs: seq<Group>, skipEmpty: bool, i: nat, t: nat)
    requires AllInRange(gs, |s|) && Shaped(gs) && MembersBelong(s, gs, skipEmpty) && Gapless(s, gs, |s|, skipEmpty)
    requires i < |gs| && t < |gs[i].members|
    ensures var m := gs[i].members;
      NextInSession(s, m[t]) == if t + 1 < |m| then Some(m[t + 1]) else None
  {
    var m := gs[i].members;
    var p := m[t];
    var sid := gs[i].sid;
    assert Grouped(s[p], skipEmpty) && s[p].event.sessionId == sid;
    var hi := Upper(m, t, |s|);
    assert NoSameBetween(s, sid, p, hi, skipEmpty);
    assert forall x :: p + 1 <= x < hi ==> !(IsView(s[x]) && s[x].event.sessionId == s[p].event.sessionId) by {
      forall x | p + 1 <= x < hi ensures !(IsView(s[x]) && s[x].event.sessionId == s[p].event.sessionId) {
        assert !SameSession(s, sid, x, skipEmpty);
      }
    }
    if t + 1 < |m| {
      assert p < m[t + 1];
      assert Grouped(s[m[t + 1]], skipEmpty) && s[m[t + 1]].event.sessionId == sid;
      NextFromIs(s, p, p + 1, m[t + 1]);
    } else {
      NextFromNone(s, p, p + 1);
    }
  }

  /** The facts about the complete grouping that the stitching proofs use. */
  predicate Sessions(s: seq<Item>, gs: seq<Group>, skipEmpty: bool) {
    AllInRange(gs, |s|) && DistinctSids(gs) && Shaped(gs) && MembersBelong(s, gs, skipEmpty) && Gapless(s, gs, |s|, skipEmpty)
  }

  lemma GroupMembers(s: seq<Item>, gs: seq<Group>, skipEmpty: bool, i: nat)
    requires Sessions(s, gs, skipEmpty) && i < |gs|
    ensures SessionMembers(s, gs[i].sid, gs[i].members, skipEmpty)
  {
    var m := gs[i].members;
    forall t | 0 <= t < |m| ensures NextInSession(s, m[t]) == if t + 1 < |m| then Some(m[t + 1]) else None {
      MemberNext(s, gs, skipEmpty, i, t);
    }
    assert SessionMembers(s, gs[i].sid, m, skipEmpty);
  }

  // ---------------------------------------------------------------------------------------------
  // The stitching loops compute the reference definitions

  /** The items differ at most in their properties. */
  predicate SameButProperties(a: Item, b: Item) {
    a.index == b.index && a.event.(properties := []) == b.event.(properties := [])
  }

  lemma HasSessionEndSame(d: seq<Item>, s: seq<Item>, sid: string)
    requires |d| == |s| && forall p :: 0 <= p < |s| ==> SameButProperties(d[p], s[p])
    ensures HasSessionEnd(d, sid) == HasSessionEnd(s, sid)
  {
    var pred := EndOf(sid);
    forall k | 0 <= k < |s| ensures pred(d[k]) == pred(s[k]) {
      assert d[k].event.name == d[k].event.(properties := []).name;
      assert s[k].event.name == s[k].event.(properties := []).name;
      assert d[k].event.sessionId == d[k].event.(properties := []).sessionId;
      assert s[k].event.sessionId == s[k].event.(properties := []).sessionId;
    }
    if First(d, pred).None? {
      assert forall k :: 0 <= k < |s| ==> !pred(s[k]);
    } else {
      var k :| 0 <= k < |d| && d[k] == First(d, pred).value;
      assert pred(s[k]);
    }
  }

  predicate NoDup(xs: seq<nat>) {
    forall j, k :: 0 <= j < k < |xs| ==> xs[j] != xs[k]
  }

  /** Visited positions hold their final items, the others are untouched. */
  predicate DataInv(s: seq<Item>, data: seq<Item>, done: seq<nat>, skipEmpty: bool, markFrom: bool) {
    |data| == |s| &&
    forall p {:trigger data[p]} :: 0 <= p < |s| ==> data[p] == if p in done then FinalItem(s, p, skipEmpty, markFrom) else s[p]
  }

  /** The write set holds visited written views, as the reference writes them. */
  predicate WriteInv(s: seq<Item>, written: seq<Item>, from: seq<nat>, done: seq<nat>, skipEmpty: bool, markFrom: bool) {
    |written| == |from| &&
    forall j {:trigger from[j]} :: 0 <= j < |from| ==>
      from[j] < |s| && from[j] in done && ViewWritten(s, from[j], skipEmpty) &&
      written[j] == WrittenView(s, from[j], markFrom)
  }

  /** Every visited view that is written is in the write set, once. */
  predicate CoverInv(s: seq<Item>, from: seq<nat>, done: seq<nat>, skipEmpty: bool) {
    (forall p {:trigger ViewWritten(s, p, skipEmpty)} :: 0 <= p < |s| && p in done && ViewWritten(s, p, skipEmpty) ==> p in from) &&
    NoDup(from)
  }

  /** The state of the stitching loops, started on an empty write set, once the positions `done` have been visited. */
  predicate Inv(s: seq<Item>, b: Batch, done: seq<nat>, skipEmpty: bool, markFrom: bool) {
    DataInv(s, b.data, done, skipEmpty, markFrom) &&
    WriteInv(s, b.written, b.from, done, skipEmpty, markFrom) &&
    CoverInv(s, b.from, done, skipEmpty)
  }

  lemma FinalSame(s: seq<Item>, p: nat, skipEmpty: bool, markFrom: bool)
    requires p < |s|
    ensures SameButProperties(FinalItem(s, p, skipEmpty, markFrom), s[p])
  {
  }

  lemma DataSame(s: seq<Item>, data: seq<Item>, done: seq<nat>, skipEmpty: bool, markFrom: bool)
    requires DataInv(s, data, done, skipEmpty, markFrom)
    ensures forall p :: 0 <= p < |s| ==> SameButProperties(data[p], s[p])
  {
    forall p | 0 <= p < |s| ensures SameButProperties(data[p], s[p]) {
      FinalSame(s, p, skipEmpty, markFrom);
    }
  }

  /** What one iteration needs to know about the member it visits. */
  predicate Visit(s: seq<Item>, sid: string, m: seq<nat>, k: nat, done: seq<nat>, skipEmpty: bool) {
    k < |m| && InRange(m, |s|) && m[k] !in done &&
    Grouped(s[m[k]], skipEmpty) && s[m[k]].event.sessionId == sid &&
    NextInSession(s, m[k]) == if k + 1 < |m| then Some(m[k + 1]) else None
  }

  lemma StepData(s: seq<Item>, sid: string, m: seq<nat>, k: nat, b: Batch, done: seq<nat>, skipEmpty: bool, markFrom: bool)
    requires Visit(s, sid, m, k, done, skipEmpty) && DataInv(s, b.data, done, skipEmpty, markFrom)
    ensures InRange(m, |b.data|)
    ensures DataInv(s, StitchStep(b, m, k, HasSessionEnd(s, sid), markFrom).data, done + [m[k]], skipEmpty, markFrom)
  {
    var p := m[k];
    assert b.data[p] == s[p];
    if k + 1 < |m| && markFrom {
      var q := m[k + 1];
      FinalSame(s, q, skipEmpty, markFrom);
      assert b.data[q].event.id == s[q].event.id by {
        assert b.data[q].event.(properties := []).id == s[q].event.(properties := []).id;
      }
    }
  }

  /** Adding a visited view that is written, as the reference writes it, keeps the write invariant. */
  lemma WriteSnoc(s: seq<Item>, written: seq<Item>, from: seq<nat>, done: seq<nat>, skipEmpty: bool, markFrom: bool, p: nat)
    requires WriteInv(s, written, from, done, skipEmpty, markFrom)
    requires p < |s| && ViewWritten(s, p, skipEmpty)
    ensures WriteInv(s, written + [WrittenView(s, p, markFrom)], from + [p], done + [p], skipEmpty, markFrom)
  {
    var written', from' := written + [WrittenView(s, p, markFrom)], from + [p];
    forall j | 0 <= j < |from'|
      ensures from'[j] < |s| && from'[j] in done + [p] && ViewWritten(s, from'[j], skipEmpty) &&
        written'[j] == WrittenView(s, from'[j], markFrom)
    {
      if j < |from| {
        assert from'[j] == from[j] && written'[j] == written[j];
      }
    }
  }

  lemma WriteSame(s: seq<Item>, written: seq<Item>, from: seq<nat>, done: seq<nat>, skipEmpty: bool, markFrom: bool, p: nat)
    requires WriteInv(s, written, from, done, skipEmpty, markFrom)
    ensures WriteInv(s, written, from, done + [p], skipEmpty, markFrom)
  {
  }

  lemma StepWrite(s: seq<Item>, sid: string, m: seq<nat>, k: nat, b: Batch, done: seq<nat>, skipEmpty: bool, markFrom: bool)
    requires Visit(s, sid, m, k, done, skipEmpty) && DataInv(s, b.data, done, skipEmpty, markFrom)
    requires WriteInv(s, b.written, b.from, done, skipEmpty, markFrom)
    ensures InRange(m, |b.data|)
    ensures var b' := StitchStep(b, m, k, HasSessionEnd(s, sid), markFrom);
      WriteInv(s, b'.written, b'.from, done + [m[k]], skipEmpty, markFrom)
  {
    var p := m[k];
    assert b.data[p] == s[p];
    var b' := StitchStep(b, m, k, HasSessionEnd(s, sid), markFrom);
    if k + 1 < |m| {
      var q := m[k + 1];
      FinalSame(s, q, skipEmpty, markFrom);
      assert b.data[q].event.id == s[q].event.id && b.data[q].event.createdAt == s[q].event.createdAt by {
        assert b.data[q].event.(properties := []).id == s[q].event.(properties := []).id;
        assert b.data[q].event.(properties := []).createdAt == s[q].event.(properties := []).createdAt;
      }
      assert b'.written == b.written + [WrittenView(s, p, markFrom)];
      WriteSnoc(s, b.written, b.from, done, skipEmpty, markFrom, p);
    } else if HasSessionEnd(s, sid) {
      WriteSnoc(s, b.written, b.from, done, skipEmpty, markFrom, p);
    } else {
      WriteSame(s, b.written, b.from, done, skipEmpty, markFrom, p);
    }
  }

  lemma StepCover(s: seq<Item>, sid: string, m: seq<nat>, k: nat, b: Batch, done: seq<nat>, skipEmpty: bool, markFrom: bool)
    requires Visit(s, sid, m, k, done, skipEmpty)
    requires WriteInv(s, b.written, b.from, done, skipEmpty, markFrom)
    requires CoverInv(s, b.from, done, skipEmpty)
    ensures InRange(m, |b.data|) ==>
      CoverInv(s, StitchStep(b, m, k, HasSessionEnd(s, sid), markFrom).from, done + [m[k]], skipEmpty)
  {
    if InRange(m, |b.data|) {
      var p := m[k];
      assert p !in b.from;
      if !(k + 1 < |m| || HasSessionEnd(s, sid)) {
        assert !ViewWritten(s, p, skipEmpty);
      }
    }
  }

  /** One iteration over a member that has not been visited keeps the invariant. */
  lemma StepInv(s: seq<Item>, sid: string, m: seq<nat>, k: nat, b: Batch, done: seq<nat>, skipEmpty: bool, markFrom: bool)
    requires Visit(s, sid, m, k, done, skipEmpty) && |b.data| == |s|
    ensures InRange(m, |b.data|)
    ensures Inv(s, b, done, skipEmpty, markFrom) ==>
      Inv(s, StitchStep(b, m, k, HasSessionEnd(s, sid), markFrom), done + [m[k]], skipEmpty, markFrom)
  {
    if Inv(s, b, done, skipEmpty, markFrom) {
      StepData(s, sid, m, k, b, done, skipEmpty, markFrom);
      StepWrite(s, sid, m, k, b, done, skipEmpty, markFrom);
      StepCover(s, sid, m, k, b, done, skipEmpty, markFrom);
    }
  }

  lemma VisitNext(s: seq<Item>, sid: string, m: seq<nat>, k: nat, done: seq<nat>, skipEmpty: bool)
    requires SessionMembers(s, sid, m, skipEmpty) && k < |m|
    requires forall t :: 0 <= t < |m| ==> m[t] !in done
    ensures Visit(s, sid, m, k, done + m[..k], skipEmpty)
  {
    assert m[k] !in m[..k] by {
      forall t | 0 <= t < k ensures m[t] != m[k] {
        assert m[t] < m[k];
      }
    }
  }

  lemma SliceSnoc<T>(d: seq<T>, m: seq<T>, k: nat)
    requires 0 < k <= |m|
    ensures d + m[..k - 1] + [m[k - 1]] == d + m[..k]
  {
    assert m[..k] == m[..k - 1] + [m[k - 1]];
  }

  /** Visiting a session's members one by one. */
  lemma {:induction false} MembersInv(s: seq<Item>, sid: string, m: seq<nat>, k: nat, b: Batch, done: seq<nat>,
                                      skipEmpty: bool, markFrom: bool)
    requires k <= |m| && InRange(m, |s|) && |b.data| == |s|
    requires forall t :: 0 <= t < k ==> Visit(s, sid, m, t, done + m[..t], skipEmpty)
    ensures Inv(s, b, done, skipEmpty, markFrom) ==>
      Inv(s, StitchMembers(b, m, k, HasSessionEnd(s, sid), markFrom), done + m[..k], skipEmpty, markFrom)
    decreases k
  {
    if k == 0 {
      assert done + m[..0] == done;
    } else {
      var h := HasSessionEnd(s, sid);
      MembersInv(s, sid, m, k - 1, b, done, skipEmpty, markFrom);
      var prev := StitchMembers(b, m, k - 1, h, markFrom);
      assert StitchMembers(b, m, k, h, markFrom) == StitchStep(prev, m, k - 1, h, markFrom);
      StepInv(s, sid, m, k - 1, prev, done + m[..k - 1], skipEmpty, markFrom);
      SliceSnoc(done, m, k);
    }
  }

  /** The positions of the first `n` groups. */
  function Flat(gs: seq<Group>, n: nat): seq<nat>
    requires n <= |gs|
    decreases n
  {
    if n == 0 then [] else Flat(gs, n - 1) + gs[n - 1].members
  }

  /** The positions of the first `n` groups belong to none of the later sessions. */
  lemma {:induction false} FlatSids(s: seq<Item>, gs: seq<Group>, n: nat, skipEmpty: bool, x: nat)
    requires AllInRange(gs, |s|) && DistinctSids(gs) && MembersBelong(s, gs, skipEmpty) && n <= |gs|
    ensures x in Flat(gs, n) ==> x < |s| && forall k :: n <= k < |gs| ==> s[x].event.sessionId != gs[k].sid
    decreases n
  {
    if n > 0 {
      if x in gs[n - 1].members {
        var t :| 0 <= t < |gs[n - 1].members| && gs[n - 1].members[t] == x;
        assert s[x].event.sessionId == gs[n - 1].sid;
      } else {
        FlatSids(s, gs, n - 1, skipEmpty, x);
      }
    }
  }

  lemma FlatDisjoint(s: seq<Item>, gs: seq<Group>, n: nat, skipEmpty: bool)
    requires Sessions(s, gs, skipEmpty) && n < |gs|
    ensures forall t :: 0 <= t < |gs[n].members| ==> gs[n].members[t] !in Flat(gs, n)
  {
    forall t | 0 <= t < |gs[n].members| ensures gs[n].members[t] !in Flat(gs, n) {
      var x := gs[n].members[t];
      FlatSids(s, gs, n, skipEmpty, x);
      assert s[x].event.sessionId == gs[n].sid;
    }
  }

  /** A member of one of the first `n` groups is among their positions. */
  lemma {:induction false} FlatHas(gs: seq<Group>, n: nat, i: nat, x: nat)
    requires i < n <= |gs| && x in gs[i].members
    ensures x in Flat(gs, n)
    decreases n
  {
    if i < n - 1 {
      FlatHas(gs, n - 1, i, x);
    }
  }

  /** Visiting all of one session's members. */
  lemma GroupInv(s: seq<Item>, b: Batch, g: Group, done: seq<nat>, skipEmpty: bool, markFrom: bool)
    requires SessionMembers(s, g.sid, g.members, skipEmpty)
    requires forall t :: 0 <= t < |g.members| ==> g.members[t] !in done
    requires Inv(s, b, done, skipEmpty, markFrom)
    ensures InRange(g.members, |b.data|)
    ensures Inv(s, StitchMembers(b, g.members, |g.members|, HasSessionEnd(b.data, g.sid), markFrom), done + g.members,
                skipEmpty, markFrom)
  {
    assert HasSessionEnd(b.data, g.sid) == HasSessionEnd(s, g.sid) by {
      DataSame(s, b.data, done, skipEmpty, markFrom);
      HasSessionEndSame(b.data, s, g.sid);
    }
    assert g.members[..|g.members|] == g.members;
    forall t | 0 <= t < |g.members| ensures Visit(s, g.sid, g.members, t, done + g.members[..t], skipEmpty) {
      VisitNext(s, g.sid, g.members, t, done, skipEmpty);
    }
    MembersInv(s, g.sid, g.members, |g.members|, b, done, skipEmpty, markFrom);
  }

  lemma {:induction false} GroupsInv(s: seq<Item>, gs: seq<Group>, n: nat, skipEmpty: bool, markFrom: bool)
    requires Sessions(s, gs, skipEmpty) && n <= |gs|
    ensures Inv(s, StitchGroups(Batch(s, [], []), gs, n, markFrom), Flat(gs, n), skipEmpty, markFrom)
    decreases n
  {
    if n > 0 {
      GroupsInv(s, gs, n - 1, skipEmpty, markFrom);
      var g := gs[n - 1];
      assert SessionMembers(s, g.sid, g.members, skipEmpty) by {
        GroupMembers(s, gs, skipEmpty, n - 1);
      }
      assert forall t :: 0 <= t < |g.members| ==> g.members[t] !in Flat(gs, n - 1) by {
        FlatDisjoint(s, gs, n - 1, skipEmpty);
      }
      GroupInv(s, StitchGroups(Batch(s, [], []), gs, n - 1, markFrom), g, Flat(gs, n - 1), skipEmpty, markFrom);
    }
  }

  // ---------------------------------------------------------------------------------------------
  // The stitching loops, as a whole

  /** The stitching loops over all groups of the sorted batch `s`, from an empty write set. */
  function Stitched(s: seq<Item>, skipEmpty: bool, markFrom: bool): (r: Batch)
    ensures |r.data| == |s|
  {
    var gs := Groups(s, skipEmpty);
    StitchGroups(Batch(s, [], []), gs, |gs|, markFrom)
  }

  /**
   * A stitching outcome as the reference definitions describe it: every array item is as `FinalItem` says,
   * and the write set holds exactly the views `ViewWritten` selects, each once and as `WrittenView` says.
   */
  predicate StitchedSpec(s: seq<Item>, skipEmpty: bool, markFrom: bool, r: Batch) {
    |r.data| == |s| &&
    (forall p :: 0 <= p < |s| ==> r.data[p] == FinalItem(s, p, skipEmpty, markFrom)) &&
    |r.written| == |r.from| && NoDup(r.from) &&
    (forall j :: 0 <= j < |r.from| ==>
      r.from[j] < |s| && ViewWritten(s, r.from[j], skipEmpty) && r.written[j] == WrittenView(s, r.from[j], markFrom)) &&
    (forall p :: 0 <= p < |s| && ViewWritten(s, p, skipEmpty) ==> p in r.from)
  }

  /** The stitching loops do what the reference definitions say. */
  lemma StitchedFacts(s: seq<Item>, skipEmpty: bool, markFrom: bool)
    ensures StitchedSpec(s, skipEmpty, markFrom, Stitched(s, skipEmpty, markFrom))
  {
    var gs := Groups(s, skipEmpty);
    GroupsFacts(s, |s|, skipEmpty);
    GroupsInv(s, gs, |gs|, skipEmpty, markFrom);
    var r := Stitched(s, skipEmpty, markFrom);
    var done := Flat(gs, |gs|);
    forall p | 0 <= p < |s| && Grouped(s[p], skipEmpty) ensures p in done {
      assert Covered(s, gs, |s|, skipEmpty);
      var i :| 0 <= i < |gs| && gs[i].sid == s[p].event.sessionId && p in gs[i].members;
      FlatHas(gs, |gs|, i, p);
    }
    assert forall p :: 0 <= p < |s| ==> r.data[p] == FinalItem(s, p, skipEmpty, markFrom);
    assert forall p :: 0 <= p < |s| && ViewWritten(s, p, skipEmpty) ==> p in r.from;
  }
}
