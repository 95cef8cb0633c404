/** The pending-request panel: which request is shown on which line, and where the cursor goes. */
module Panel {
  import opened Text

  datatype Info = Info(
    id: nat, secret: string, process: Option<string>, pid: nat, hash: Option<string>, hashError: Option<string>,
    reason: string, expired: bool, expiresAt: nat)

  /** One entry per line; a free line is `None`. */
  type Slots = seq<Option<Info>>

  // ── reconciling the lines with a snapshot ──────────────────────

  /** The first request of that id. */
  function Find(incoming: seq<Info>, id: nat): (found: Option<Info>)
    ensures found.Some? ==> found.value in incoming && found.value.id == id
    ensures found.None? <==> forall p :: p in incoming ==> p.id != id
  {
    if incoming == [] then None
    else if incoming[0].id == id then Some(incoming[0])
    else Find(incoming[1..], id)
  }

  predicate Shows(slots: Slots, id: nat) {
    exists i :: 0 <= i < |slots| && slots[i].Some? && slots[i].value.id == id
  }

  /** Shown requests that are gone free their line, the others are refreshed where they are. */
  function Refreshed(slots: Slots, incoming: seq<Info>): Slots {
    seq(|slots|, i requires 0 <= i < |slots| => if slots[i].None? then None else Find(incoming, slots[i].value.id))
  }

  predicate TopmostFree(slots: Slots, free: nat) {
    free <= |slots| && (forall i :: 0 <= i < free ==> slots[i].Some?) && (free < |slots| ==> slots[free].None?)
  }

  function FirstFree(slots: Slots): (free: nat)
    ensures TopmostFree(slots, free)
  {
    if slots == [] || slots[0].None? then 0 else 1 + FirstFree(slots[1..])
  }

  lemma FirstFreeUnique(slots: Slots, free: nat)
    requires TopmostFree(slots, free)
    ensures free == FirstFree(slots)
  {
  }

  /** A request not yet shown takes the topmost free line, if there is one. */
  function Claimed(slots: Slots, req: Info): Slots {
    var free := FirstFree(slots);
    if Shows(slots, req.id) || free == |slots| then slots else slots[free := Some(req)]
  }

  function ClaimedAll(slots: Slots, incoming: seq<Info>): Slots {
    if incoming == [] then slots
    else Claimed(ClaimedAll(slots, incoming[..|incoming| - 1]), incoming[|incoming| - 1])
  }

  function Synced(slots: Slots, incoming: seq<Info>): Slots {
    ClaimedAll(Refreshed(slots, incoming), incoming)
  }

  method SyncSlots(slots: array<Option<Info>>, incoming: seq<Info>)
    modifies slots
    ensures slots[..] == Synced(old(slots[..]), incoming)
  {
    ghost var was := slots[..];
    for i := 0 to slots.Length
      invariant forall k :: 0 <= k < i ==> slots[k] == Refreshed(was, incoming)[k]
      invariant forall k :: i <= k < slots.Length ==> slots[k] == was[k]
    {
      if slots[i].Some? {
        slots[i] := Find(incoming, slots[i].value.id);
      }
    }
    assert slots[..] == Refreshed(was, incoming);
    for j := 0 to |incoming|
      invariant slots[..] == ClaimedAll(Refreshed(was, incoming), incoming[..j])
    {
      assert incoming[..j + 1][..j] == incoming[..j];
      Claim(slots, incoming[j]);
    }
    assert incoming[..|incoming|] == incoming;
  }

  method Claim(slots: array<Option<Info>>, req: Info)
    modifies slots
    ensures slots[..] == Claimed(old(slots[..]), req)
  {
    var free: nat := slots.Length;
    var i := 0;
    while i < slots.Length
      invariant 0 <= i <= slots.Length
      invariant forall k :: 0 <= k < i ==> slots[k].Some? ==> slots[k].value.id != req.id
      invariant
        if free < slots.Length then free < i && TopmostFree(slots[..], free)
        else forall k :: 0 <= k < i ==> slots[k].Some?
      invariant free <= slots.Length
    {
      if slots[i].Some? {
        if slots[i].value.id == req.id {
          assert slots[..][i].value.id == req.id;
          return;
        }
      } else if free == slots.Length {
        free := i;
      }
      i := i + 1;
    }
    FirstFreeUnique(slots[..], free);
    if free < slots.Length {
      slots[free] := Some(req);
    }
  }

  // ── what reconciling promises ──────────────────────────────────

  ghost predicate NoIdTwice(slots: Slots) {
    forall i, j :: 0 <= i < j < |slots| && slots[i].Some? && slots[j].Some? ==> slots[i].value.id != slots[j].value.id
  }

  /** Every line shows what the snapshot has for its request. */
  ghost predicate Fresh(slots: Slots, incoming: seq<Info>) {
    forall i :: 0 <= i < |slots| && slots[i].Some? ==> Find(incoming, slots[i].value.id) == slots[i]
  }

  predicate Full(slots: Slots) {
    forall i :: 0 <= i < |slots| ==> slots[i].Some?
  }

  lemma {:induction false} ClaimsKeepLines(slots: Slots, incoming: seq<Info>, i: nat)
    requires i < |slots|
    ensures |ClaimedAll(slots, incoming)| == |slots|
    ensures slots[i].Some? ==> ClaimedAll(slots, incoming)[i] == slots[i]
  {
    if incoming != [] {
      ClaimsKeepLines(slots, incoming[..|incoming| - 1], i);
    }
  }

  lemma {:induction false} ClaimsLength(slots: Slots, incoming: seq<Info>)
    ensures |ClaimedAll(slots, incoming)| == |slots|
  {
    if incoming != [] {
      ClaimsLength(slots, incoming[..|incoming| - 1]);
    }
  }

  lemma {:induction false} ClaimsKeepDistinct(slots: Slots, incoming: seq<Info>)
    requires NoIdTwice(slots)
    ensures NoIdTwice(ClaimedAll(slots, incoming))
  {
    if incoming != [] {
      ClaimsKeepDistinct(slots, incoming[..|incoming| - 1]);
    }
  }

  /** Once shown, and once full, always so while claims go on. */
  lemma ClaimMonotone(slots: Slots, req: Info, id: nat)
    ensures Shows(slots, id) ==> Shows(Claimed(slots, req), id)
    ensures Full(slots) ==> Claimed(slots, req) == slots
  {
    if Shows(slots, id) {
      var i :| 0 <= i < |slots| && slots[i].Some? && slots[i].value.id == id;
      assert Claimed(slots, req)[i] == slots[i];
    }
  }

  lemma ClaimSettles(slots: Slots, req: Info)
    ensures Shows(Claimed(slots, req), req.id) || Full(Claimed(slots, req))
  {
    var free := FirstFree(slots);
    if !Shows(slots, req.id) && free < |slots| {
      assert Claimed(slots, req)[free] == Some(req);
    }
  }

  lemma {:induction false} ClaimsSettle(slots: Slots, incoming: seq<Info>, p: Info)
    requires p in incoming
    ensures Shows(ClaimedAll(slots, incoming), p.id) || Full(ClaimedAll(slots, incoming))
  {
    var front, last := incoming[..|incoming| - 1], incoming[|incoming| - 1];
    if p == last {
      ClaimSettles(ClaimedAll(slots, front), last);
    } else {
      assert p in front;
      ClaimsSettle(slots, front, p);
      ClaimMonotone(ClaimedAll(slots, front), last, p.id);
    }
  }

  lemma {:induction false} FindAppended(front: seq<Info>, p: Info, id: nat)
    ensures Find(front + [p], id) ==
      if Find(front, id).Some? then Find(front, id) else if p.id == id then Some(p) else None
  {
    if front != [] {
      assert (front + [p])[1..] == front[1..] + [p];
      FindAppended(front[1..], p, id);
    }
  }

  /** What is claimed is what the snapshot has first under that id. */
  lemma {:induction false} ClaimsFresh(slots: Slots, incoming: seq<Info>, whole: seq<Info>)
    requires Fresh(slots, whole) && incoming <= whole
    ensures Fresh(ClaimedAll(slots, incoming), whole)
  {
    if incoming != [] {
      var front, last := incoming[..|incoming| - 1], incoming[|incoming| - 1];
      ClaimsFresh(slots, front, whole);
      LateOnesWait(slots, front, last, whole);
    }
  }

  /** A request whose id came up before is either shown already, or there was no line for it and there is none now. */
  lemma LateOnesWait(slots: Slots, front: seq<Info>, last: Info, whole: seq<Info>)
    requires front + [last] <= whole
    ensures
      var before := ClaimedAll(slots, front);
      Find(whole, last.id) == Some(last) || Claimed(before, last) == before
  {
    var before := ClaimedAll(slots, front);
    FindPrefix(front + [last], whole, last.id);
    FindAppended(front, last, last.id);
    if Find(front, last.id).Some? {
      ClaimsSettle(slots, front, Find(front, last.id).value);
      ClaimMonotone(before, last, last.id);
    }
  }

  lemma {:induction false} FindPrefix(a: seq<Info>, b: seq<Info>, id: nat)
    requires a <= b && Find(a, id).Some?
    ensures Find(b, id) == Find(a, id)
  {
    if a[0].id != id {
      FindPrefix(a[1..], b[1..], id);
    }
  }

  lemma RefreshedFresh(slots: Slots, incoming: seq<Info>)
    ensures Fresh(Refreshed(slots, incoming), incoming)
    ensures NoIdTwice(slots) ==> NoIdTwice(Refreshed(slots, incoming))
  {
  }

  /**
   * Every request still pending stays on its line, with the snapshot's data; every line shows a pending request
   * as the snapshot has it; no request is shown twice; and one is hidden only when every line is taken.
   */
  lemma SyncKeepsOrder(slots: Slots, incoming: seq<Info>)
    ensures |Synced(slots, incoming)| == |slots|
    ensures forall i :: 0 <= i < |slots| && slots[i].Some? && Find(incoming, slots[i].value.id).Some? ==>
      Synced(slots, incoming)[i] == Find(incoming, slots[i].value.id)
    ensures Fresh(Synced(slots, incoming), incoming)
    ensures NoIdTwice(slots) ==> NoIdTwice(Synced(slots, incoming))
    ensures forall p :: p in incoming ==> Shows(Synced(slots, incoming), p.id) || Full(Synced(slots, incoming))
  {
    var fresh0 := Refreshed(slots, incoming);
    RefreshedFresh(slots, incoming);
    ClaimsLength(fresh0, incoming);
    forall i | 0 <= i < |slots| && slots[i].Some? && Find(incoming, slots[i].value.id).Some?
      ensures Synced(slots, incoming)[i] == Find(incoming, slots[i].value.id)
    {
      ClaimsKeepLines(fresh0, incoming, i);
    }
    ClaimsFresh(fresh0, incoming, incoming);
    if NoIdTwice(slots) {
      ClaimsKeepDistinct(fresh0, incoming);
    }
    forall p | p in incoming ensures Shows(Synced(slots, incoming), p.id) || Full(Synced(slots, incoming)) {
      ClaimsSettle(fresh0, incoming, p);
    }
  }

  /** New requests fill the free lines from the top. */
  lemma {:induction false} ClaimsFromTheTop(slots: Slots, incoming: seq<Info>, i: nat, j: nat)
    requires i < j < |slots| && slots[i].None? && slots[j].None?
    ensures |ClaimedAll(slots, incoming)| == |slots|
    ensures ClaimedAll(slots, incoming)[j].Some? ==> ClaimedAll(slots, incoming)[i].Some?
  {
    ClaimsLength(slots, incoming);
    if incoming != [] {
      ClaimsLength(slots, incoming[..|incoming| - 1]);
      ClaimsFromTheTop(slots, incoming[..|incoming| - 1], i, j);
    }
  }

  lemma {:induction false} NothingToClaim(slots: Slots, incoming: seq<Info>)
    requires forall p :: p in incoming ==> Shows(slots, p.id) || Full(slots)
    ensures ClaimedAll(slots, incoming) == slots
  {
    if incoming != [] {
      assert incoming[|incoming| - 1] in incoming;
      NothingToClaim(slots, incoming[..|incoming| - 1]);
      ClaimMonotone(slots, incoming[|incoming| - 1], 0);
    }
  }

  /** Seeing the same snapshot again changes nothing. */
  lemma SyncIdempotent(slots: Slots, incoming: seq<Info>)
    ensures Synced(Synced(slots, incoming), incoming) == Synced(slots, incoming)
  {
    var once := Synced(slots, incoming);
    SyncKeepsOrder(slots, incoming);
    assert Refreshed(once, incoming) == once;
    NothingToClaim(once, incoming);
  }

  // ── the cursor ─────────────────────────────────────────────────

  datatype Sel = Forever | Grant | Deny

  datatype Cursor = Request(slot: nat, sel: Sel) | All(grant: bool)

  predicate Live(slots: Slots, disabled: set<nat>, i: nat) {
    i < |slots| && slots[i].Some? && slots[i].value.id !in disabled
  }

  predicate Rising(occ: seq<nat>) {
    forall a, b :: 0 <= a < b < |occ| ==> occ[a] < occ[b]
  }

  /** The lines whose decision is not already under way, from the top. */
  function OccupiedLive(slots: Slots, disabled: set<nat>): seq<nat> {
    LiveBelow(slots, disabled, |slots|)
  }

  function LiveBelow(slots: Slots, disabled: set<nat>, n: nat): (occ: seq<nat>)
    requires n <= |slots|
    ensures forall i: nat :: i in occ <==> i < n && Live(slots, disabled, i)
    ensures Rising(occ)
  {
    if n == 0 then []
    else
      var front := LiveBelow(slots, disabled, n - 1);
      assert forall a :: 0 <= a < |front| ==> front[a] in front;
      if Live(slots, disabled, n - 1) then front + [n - 1] else front
  }

  /** The arrows go over exactly the lines that show a request whose decision is not under way, from the top. */
  lemma TraversedLines(slots: Slots, disabled: set<nat>, i: nat)
    ensures i in OccupiedLive(slots, disabled) <==>
      i < |slots| && slots[i].Some? && slots[i].value.id !in disabled
    ensures Rising(OccupiedLive(slots, disabled))
  {
  }

  function Position(occ: seq<nat>, slot: nat): (p: Option<nat>)
    ensures p.Some? <==> slot in occ
    ensures p.Some? ==> p.value < |occ| && occ[p.value] == slot
  {
    if occ == [] then None
    else if occ[0] == slot then Some(0)
    else
      var rest := Position(occ[1..], slot);
      if rest.Some? then Some(rest.value + 1) else None
  }

  function Pick(grant: bool): Sel {
    if grant then Grant else Deny
  }

  function CursorUp(slots: Slots, cur: Cursor, disabled: set<nat>): Cursor {
    UpAmong(OccupiedLive(slots, disabled), cur)
  }

  function CursorDown(slots: Slots, cur: Cursor, disabled: set<nat>): Cursor {
    DownAmong(OccupiedLive(slots, disabled), cur)
  }

  /** One press of an arrow, given the live rows. */
  function UpAmong(occ: seq<nat>, cur: Cursor): Cursor {
    if occ == [] then cur
    else match cur
      case Request(slot, sel) =>
        (match Position(occ, slot)
         case None => Request(occ[0], sel)
         case Some(i) => if i == 0 then All(sel != Deny) else Request(occ[i - 1], sel))
      case All(grant) => Request(occ[|occ| - 1], Pick(grant))
  }

  function DownAmong(occ: seq<nat>, cur: Cursor): Cursor {
    if occ == [] then cur
    else match cur
      case Request(slot, sel) =>
        (match Position(occ, slot)
         case None => Request(occ[0], sel)
         case Some(i) => if i + 1 < |occ| then Request(occ[i + 1], sel) else All(sel != Deny))
      case All(grant) => Request(occ[0], Pick(grant))
  }

  lemma PositionAt(occ: seq<nat>, i: nat)
    requires i < |occ| && Rising(occ)
    ensures Position(occ, occ[i]) == Some(i)
  {
    assert occ[i] in occ;
  }

  /** One key press on a live row. */
  lemma StepFrom(occ: seq<nat>, sel: Sel, i: nat)
    requires i < |occ| && Rising(occ)
    ensures UpAmong(occ, Request(occ[i], sel)) == if i == 0 then All(sel != Deny) else Request(occ[i - 1], sel)
    ensures DownAmong(occ, Request(occ[i], sel)) ==
      if i + 1 < |occ| then Request(occ[i + 1], sel) else All(sel != Deny)
  {
    PositionAt(occ, i);
  }

  lemma UpUndoesDownAmong(occ: seq<nat>, cur: Cursor)
    requires Rising(occ)
    ensures UpAmong(occ, DownAmong(occ, cur)) == cur <==>
      || occ == [] || cur.All?
      || (cur.slot in occ && (cur.sel != Forever || cur.slot != occ[|occ| - 1]))
  {
    if occ == [] {
    } else if cur.All? {
      StepFrom(occ, Pick(cur.grant), 0);
    } else if cur.slot !in occ {
      StepFrom(occ, cur.sel, 0);
    } else {
      var i := Position(occ, cur.slot).value;
      StepFrom(occ, cur.sel, i);
      if i + 1 < |occ| {
        StepFrom(occ, cur.sel, i + 1);
      }
    }
  }

  /**
   * Up undoes Down exactly when the arrows do nothing, from the all-row, and from a live row, unless Forever is
   * selected on the last one: crossing the all-row turns Forever into Grant.
   */
  lemma UpUndoesDown(slots: Slots, cur: Cursor, disabled: set<nat>)
    ensures
      var occ := OccupiedLive(slots, disabled);
      CursorUp(slots, CursorDown(slots, cur, disabled), disabled) == cur <==>
      || occ == [] || cur.All?
      || (cur.slot in occ && (cur.sel != Forever || cur.slot != occ[|occ| - 1]))
  {
    UpUndoesDownAmong(OccupiedLive(slots, disabled), cur);
  }

  lemma DownUndoesUpAmong(occ: seq<nat>, cur: Cursor)
    requires Rising(occ)
    ensures DownAmong(occ, UpAmong(occ, cur)) == cur <==>
      || occ == [] || cur.All?
      || (cur.slot in occ && (cur.sel != Forever || cur.slot != occ[0]))
  {
    if occ == [] {
    } else if cur.All? {
      StepFrom(occ, Pick(cur.grant), |occ| - 1);
    } else if cur.slot !in occ {
      StepFrom(occ, cur.sel, 0);
    } else {
      var i := Position(occ, cur.slot).value;
      StepFrom(occ, cur.sel, i);
      if i > 0 {
        StepFrom(occ, cur.sel, i - 1);
      }
    }
  }

  /** Down undoes Up exactly then, with the first live row in place of the last. */
  lemma DownUndoesUp(slots: Slots, cur: Cursor, disabled: set<nat>)
    ensures
      var occ := OccupiedLive(slots, disabled);
      CursorDown(slots, CursorUp(slots, cur, disabled), disabled) == cur <==>
      || occ == [] || cur.All?
      || (cur.slot in occ && (cur.sel != Forever || cur.slot != occ[0]))
  {
    DownUndoesUpAmong(OccupiedLive(slots, disabled), cur);
  }

  /** From a row that is no longer live either arrow goes to the topmost live row, keeping the button. */
  lemma StrandedGoesTop(slots: Slots, slot: nat, sel: Sel, disabled: set<nat>, top: nat)
    requires !Live(slots, disabled, slot)
    requires Live(slots, disabled, top) && forall i: nat :: i < top ==> !Live(slots, disabled, i)
    ensures CursorUp(slots, Request(slot, sel), disabled) == Request(top, sel)
    ensures CursorDown(slots, Request(slot, sel), disabled) == Request(top, sel)
  {
    var occ := OccupiedLive(slots, disabled);
    assert top in occ && slot !in occ && occ[0] in occ;
  }

  function Downs(slots: Slots, cur: Cursor, disabled: set<nat>, k: nat): Cursor {
    if k == 0 then cur else CursorDown(slots, Downs(slots, cur, disabled, k - 1), disabled)
  }

  function Ups(slots: Slots, cur: Cursor, disabled: set<nat>, k: nat): Cursor {
    if k == 0 then cur else CursorUp(slots, Ups(slots, cur, disabled, k - 1), disabled)
  }

  /** Where the tour from the all-row is after `k` presses: on each live row in turn, then on the all-row again. */
  function TourDown(occ: seq<nat>, grant: bool, k: nat): Cursor
    requires 1 <= k <= |occ| + 1
  {
    if k <= |occ| then Request(occ[k - 1], Pick(grant)) else All(grant)
  }

  function TourUp(occ: seq<nat>, grant: bool, k: nat): Cursor
    requires 1 <= k <= |occ| + 1
  {
    if k <= |occ| then Request(occ[|occ| - k], Pick(grant)) else All(grant)
  }

  lemma TourSteps(occ: seq<nat>, grant: bool, k: nat)
    requires Rising(occ) && 1 <= k <= |occ|
    ensures DownAmong(occ, TourDown(occ, grant, k)) == TourDown(occ, grant, k + 1)
    ensures UpAmong(occ, TourUp(occ, grant, k)) == TourUp(occ, grant, k + 1)
  {
    StepFrom(occ, Pick(grant), k - 1);
    StepFrom(occ, Pick(grant), |occ| - k);
  }

  /**
   * From the all-row, the k-th Down is on the k-th live row from the top, for every k, and the one after the
   * last is on the all-row again, with the same button selected throughout.
   */
  lemma {:induction false} DownsTour(slots: Slots, grant: bool, disabled: set<nat>, k: nat)
    requires OccupiedLive(slots, disabled) != [] && 1 <= k <= |OccupiedLive(slots, disabled)| + 1
    ensures Downs(slots, All(grant), disabled, k) == TourDown(OccupiedLive(slots, disabled), grant, k)
  {
    var occ := OccupiedLive(slots, disabled);
    if k == 1 {
      assert Downs(slots, All(grant), disabled, 1) == DownAmong(occ, All(grant));
    } else {
      DownsTour(slots, grant, disabled, k - 1);
      TourSteps(occ, grant, k - 1);
    }
  }

  /** Ups make the same tour from the bottom. */
  lemma {:induction false} UpsTour(slots: Slots, grant: bool, disabled: set<nat>, k: nat)
    requires OccupiedLive(slots, disabled) != [] && 1 <= k <= |OccupiedLive(slots, disabled)| + 1
    ensures Ups(slots, All(grant), disabled, k) == TourUp(OccupiedLive(slots, disabled), grant, k)
  {
    var occ := OccupiedLive(slots, disabled);
    if k == 1 {
      assert Ups(slots, All(grant), disabled, 1) == UpAmong(occ, All(grant));
    } else {
      UpsTour(slots, grant, disabled, k - 1);
      TourSteps(occ, grant, k - 1);
    }
  }

  /** The tour meets every live row exactly once. */
  lemma TourMeetsEachOnce(slots: Slots, grant: bool, disabled: set<nat>, i: nat)
    requires Live(slots, disabled, i)
    ensures exists k ::
      1 <= k <= |OccupiedLive(slots, disabled)| && Downs(slots, All(grant), disabled, k) == Request(i, Pick(grant))
    ensures forall j, k ::
      (1 <= j <= |OccupiedLive(slots, disabled)| && 1 <= k <= |OccupiedLive(slots, disabled)| &&
       Downs(slots, All(grant), disabled, j) == Downs(slots, All(grant), disabled, k)) ==> j == k
  {
    var occ := OccupiedLive(slots, disabled);
    assert i in occ;
    var p := Position(occ, i).value;
    DownsTour(slots, grant, disabled, p + 1);
    forall j, k |
      1 <= j <= |occ| && 1 <= k <= |occ| &&
      Downs(slots, All(grant), disabled, j) == Downs(slots, All(grant), disabled, k)
      ensures j == k
    {
      DownsTour(slots, grant, disabled, j);
      DownsTour(slots, grant, disabled, k);
    }
  }

  /** With nothing live the arrows leave the cursor where it is. */
  lemma NothingLiveStays(slots: Slots, cur: Cursor, disabled: set<nat>)
    requires forall i: nat :: !Live(slots, disabled, i)
    ensures CursorUp(slots, cur, disabled) == cur && CursorDown(slots, cur, disabled) == cur
  {
    NoneBelow(slots, disabled, |slots|);
  }

  lemma {:induction false} NoneBelow(slots: Slots, disabled: set<nat>, n: nat)
    requires n <= |slots| && forall i: nat :: !Live(slots, disabled, i)
    ensures LiveBelow(slots, disabled, n) == []
  {
    if n > 0 {
      NoneBelow(slots, disabled, n - 1);
    }
  }

  /** After a decision: the next occupied line below, wrapping round, or the all-row. */
  method CursorAfterAction(slots: array<Option<Info>>, slot: nat) returns (cur: Cursor)
    ensures cur.All? <==> forall i :: 0 <= i < slots.Length ==> slots[i].None?
    ensures cur.All? ==> cur.grant
    ensures cur.Request? ==> cur.sel == Grant && cur.slot < slots.Length && slots[cur.slot].Some?
    ensures cur.Request? && cur.slot > slot ==> forall i :: slot < i < cur.slot ==> slots[i].None?
    ensures cur.Request? && cur.slot <= slot ==>
      (forall i :: 0 <= i < cur.slot ==> slots[i].None?) && (forall i :: slot < i < slots.Length ==> slots[i].None?)
  {
    var occ := OccupiedLive(slots[..], {});
    var below: Option<nat> := None;
    for k := 0 to |occ|
      invariant below.None? ==> forall j :: 0 <= j < k ==> occ[j] <= slot
      invariant below.Some? ==> below.value in occ && below.value > slot
      invariant below.Some? ==> forall j :: 0 <= j < |occ| && occ[j] < below.value ==> occ[j] <= slot
    {
      if below.None? && occ[k] > slot {
        below := Some(occ[k]);
      }
    }
    assert forall i :: 0 <= i < slots.Length && slots[i].Some? ==> Live(slots[..], {}, i) && i in occ;
    if below.Some? {
      return Request(below.value, Grant);
    }
    if |occ| > 0 {
      assert occ[0] in occ;
      return Request(occ[0], Grant);
    }
    return All(true);
  }
}
