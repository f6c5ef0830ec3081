/** The two-step hand-over of a mint's authority, as a machine over the events of a run that
    concern it. */
module Handovers {
  import opened Results
  import opened Keys

  /** The successful steps that concern a mint's authority, with who signed them. */
  datatype Event =
    | Started(who: Key, signers: set<Key>)
    | Nominated(who: Key, to: Key, signers: set<Key>)
    | Accepted(who: Key, signers: set<Key>)
    | Nothing

  /** Who holds the authority and who is nominated for it; `DEFAULT` is nobody. */
  datatype Seat = Seat(authority: Key, pending: Key)

  predicate Moves(a: Option<Seat>, e: Event, b: Option<Seat>)
  {
    match e
    case Started(who, signers) => a.None? && who in signers && b == Some(Seat(who, DEFAULT))
    case Nominated(who, to, signers) =>
      a.Some? && who == a.value.authority && who in signers && b == Some(Seat(who, to))
    case Accepted(who, signers) =>
      a.Some? && who == a.value.pending && who != DEFAULT && who in signers && b == Some(Seat(who, DEFAULT))
    case Nothing => a == b
  }

  predicate MovesAt(events: seq<Event>, seats: seq<Option<Seat>>, i: nat)
    requires i < |events| && i + 1 < |seats|
  {
    Moves(seats[i], events[i], seats[i + 1])
  }

  /** `seats[i]` is the seat before event `i`, starting from an unconfigured mint. */
  ghost predicate Follows(events: seq<Event>, seats: seq<Option<Seat>>)
  {
    && |seats| == |events| + 1
    && seats[0] == None
    && forall i :: 0 <= i < |events| ==> MovesAt(events, seats, i)
  }

  /** One hand-over: the events of its nomination and its acceptance, and who hands to whom. */
  datatype Handover = Handover(nominated: nat, accepted: nat, from: Key, to: Key)

  /** The nomination is signed by the authority then in force, the acceptance by the nominee,
      and no later nomination comes between. */
  ghost predicate IsHandover(events: seq<Event>, seats: seq<Option<Seat>>, h: Handover)
    requires |seats| == |events| + 1
  {
    && h.nominated < h.accepted < |events|
    && events[h.nominated].Nominated? && events[h.nominated].who == h.from && events[h.nominated].to == h.to
    && h.from in events[h.nominated].signers
    && seats[h.nominated].Some? && seats[h.nominated].value.authority == h.from
    && h.to != DEFAULT
    && events[h.accepted].Accepted? && events[h.accepted].who == h.to
    && h.to in events[h.accepted].signers
    && forall j :: h.nominated < j < h.accepted ==> !events[j].Nominated? && !events[j].Accepted?
  }

  /** Hand-overs one after the other, each from the previous one's recipient. */
  ghost predicate IsChain(events: seq<Event>, seats: seq<Option<Seat>>, hs: seq<Handover>)
    requires |seats| == |events| + 1
  {
    && (forall k :: 0 <= k < |hs| ==> IsHandover(events, seats, hs[k]))
    && Ordered(hs)
    && (forall k :: 0 < k < |hs| ==> hs[k].from == hs[k - 1].to)
  }

  predicate Ordered(hs: seq<Handover>)
  {
    forall k, l :: 0 <= k < l < |hs| ==> hs[k].accepted < hs[l].nominated
  }

  /** How many of the hand-overs are complete before event `i`. */
  function Completed(hs: seq<Handover>, i: nat): (c: nat)
    ensures c <= |hs|
  {
    if hs == [] then 0
    else if hs[|hs| - 1].accepted < i then |hs|
    else Completed(hs[..|hs| - 1], i)
  }

  /** Who holds the authority before event `i` after these hand-overs. */
  function Holder(first: Key, hs: seq<Handover>, i: nat): Key
  {
    if Completed(hs, i) == 0 then first else hs[Completed(hs, i) - 1].to
  }

  /** The authority's history: where the mint was initialised and by whom, the completed
      hand-overs, and the nomination not yet consumed, if any. */
  datatype History = History(start: nat, first: Key, handovers: seq<Handover>, open: Option<nat>)

  /** This acceptance completes one of the hand-overs. */
  ghost predicate Covered(hs: seq<Handover>, i: nat)
  {
    exists k :: 0 <= k < |hs| && hs[k].accepted == i
  }

  ghost predicate AllCovered(events: seq<Event>, hs: seq<Handover>, n: nat)
    requires n <= |events|
  {
    forall i :: 0 <= i < n && events[i].Accepted? ==> Covered(hs, i)
  }

  predicate HeldAt(seats: seq<Option<Seat>>, first: Key, hs: seq<Handover>, i: nat)
    requires i < |seats|
  {
    seats[i].Some? && seats[i].value.authority == Holder(first, hs, i)
  }

  /** The hand-overs tell who holds the authority at every point since the start. */
  ghost predicate Held(seats: seq<Option<Seat>>, h: History, n: nat)
    requires n < |seats|
  {
    && (forall i :: 0 <= i <= h.start && i <= n ==> seats[i] == None)
    && (forall i :: h.start < i <= n ==> HeldAt(seats, h.first, h.handovers, i))
  }

  ghost predicate Origin(events: seq<Event>, h: History, n: nat)
    requires n <= |events|
  {
    var hs := h.handovers;
    && h.start < n
    && events[h.start].Started? && events[h.start].who == h.first && h.first in events[h.start].signers
    && (hs != [] ==> h.start < hs[0].nominated && hs[|hs| - 1].accepted < n && hs[0].from == h.first)
  }

  /** What is pending is the open nomination. */
  ghost predicate Pending(events: seq<Event>, seat: Seat, n: nat, h: History)
    requires n <= |events|
  {
    var hs := h.handovers;
    match h.open
    case None =>
      && seat.pending == DEFAULT
      && forall i :: 0 <= i < n && events[i].Nominated? ==> |hs| > 0 && i < hs[|hs| - 1].accepted
    case Some(p) =>
      && h.start < p < n
      && (|hs| > 0 ==> hs[|hs| - 1].accepted < p)
      && events[p].Nominated? && events[p].who == seat.authority && events[p].to == seat.pending
      && forall i :: p < i < n ==> !events[i].Nominated? && !events[i].Accepted?
  }

  /** The history accounts for everything that happened to the authority before event `n`. */
  ghost predicate Explains(events: seq<Event>, seats: seq<Option<Seat>>, n: nat, h: History)
    requires |seats| == |events| + 1 && n <= |events|
  {
    && seats[n].Some?
    && Origin(events, h, n)
    && IsChain(events, seats, h.handovers)
    && AllCovered(events, h.handovers, n)
    && Held(seats, h, n)
    && Pending(events, seats[n].value, n, h)
  }

  lemma CompletedPrefix(hs: seq<Handover>, h: Handover, i: nat)
    ensures i <= h.accepted ==> Completed(hs + [h], i) == Completed(hs, i)
    ensures i > h.accepted ==> Completed(hs + [h], i) == |hs| + 1
  {
    assert (hs + [h])[..|hs|] == hs;
  }

  lemma HolderNow(first: Key, hs: seq<Handover>, n: nat)
    requires |hs| > 0 ==> hs[|hs| - 1].accepted < n
    ensures Holder(first, hs, n) == if hs == [] then first else hs[|hs| - 1].to
  {
  }

  lemma ExtendHeld(seats: seq<Option<Seat>>, h: History, last: Handover, n: nat)
    requires n + 1 < |seats| && h.start < n == last.accepted && Held(seats, h, n)
    requires seats[n + 1].Some? && seats[n + 1].value.authority == last.to
    ensures Held(seats, h.(handovers := h.handovers + [last], open := None), n + 1)
  {
    var hs := h.handovers;
    forall i | h.start < i <= n + 1 ensures HeldAt(seats, h.first, hs + [last], i) {
      CompletedPrefix(hs, last, i);
      if i <= n { assert HeldAt(seats, h.first, hs, i); }
    }
  }

  lemma ExtendCovered(events: seq<Event>, hs: seq<Handover>, last: Handover, n: nat)
    requires n < |events| && last.accepted == n && AllCovered(events, hs, n)
    ensures AllCovered(events, hs + [last], n + 1)
  {
    forall i | 0 <= i < n + 1 && events[i].Accepted? ensures Covered(hs + [last], i) {
      if i == n {
        assert (hs + [last])[|hs|].accepted == n;
      } else {
        assert Covered(hs, i);
        var k :| 0 <= k < |hs| && hs[k].accepted == i;
        assert (hs + [last])[k].accepted == i;
      }
    }
  }

  lemma ChainEnds(events: seq<Event>, seats: seq<Option<Seat>>, hs: seq<Handover>)
    requires |seats| == |events| + 1 && IsChain(events, seats, hs)
    ensures forall k :: 0 <= k < |hs| ==> hs[k].accepted <= hs[|hs| - 1].accepted
  {
    forall k | 0 <= k < |hs| - 1 ensures hs[k].accepted < hs[|hs| - 1].accepted {
      assert hs[k].accepted < hs[|hs| - 1].nominated;
      assert IsHandover(events, seats, hs[|hs| - 1]);
    }
  }

  lemma ExtendOrdered(hs: seq<Handover>, last: Handover)
    requires Ordered(hs) && forall k :: 0 <= k < |hs| ==> hs[k].accepted < last.nominated
    ensures Ordered(hs + [last])
  {
  }

  lemma ExtendChain(events: seq<Event>, seats: seq<Option<Seat>>, hs: seq<Handover>, last: Handover)
    requires |seats| == |events| + 1 && IsChain(events, seats, hs) && IsHandover(events, seats, last)
    requires hs != [] ==> hs[|hs| - 1].accepted < last.nominated && last.from == hs[|hs| - 1].to
    ensures IsChain(events, seats, hs + [last])
  {
    var ext := hs + [last];
    forall k | 0 <= k < |ext| ensures IsHandover(events, seats, ext[k]) {
      if k < |hs| { assert ext[k] == hs[k]; }
    }
    ChainEnds(events, seats, hs);
    ExtendOrdered(hs, last);
  }

  lemma ExtendByAcceptance(events: seq<Event>, seats: seq<Option<Seat>>, n: nat, h: History) returns (h': History)
    requires Follows(events, seats) && n < |events| && Explains(events, seats, n, h)
    requires events[n].Accepted?
    ensures Explains(events, seats, n + 1, h')
  {
    var hs := h.handovers;
    assert MovesAt(events, seats, n);
    var p := h.open.value;
    assert MovesAt(events, seats, p);
    var last := Handover(p, n, events[p].who, events[n].who);
    assert IsHandover(events, seats, last);
    HolderNow(h.first, hs, n);
    assert HeldAt(seats, h.first, hs, n);
    ExtendHeld(seats, h, last, n);
    ExtendCovered(events, hs, last, n);
    ExtendChain(events, seats, hs, last);
    h' := h.(handovers := hs + [last], open := None);
    if hs != [] { assert IsHandover(events, seats, hs[0]); }
  }

  lemma KeepHeld(seats: seq<Option<Seat>>, h: History, open: Option<nat>, n: nat)
    requires n + 1 < |seats| && h.start < n && Held(seats, h, n)
    requires h.handovers != [] ==> h.handovers[|h.handovers| - 1].accepted < n
    requires seats[n].Some? && seats[n + 1].Some? && seats[n + 1].value.authority == seats[n].value.authority
    ensures Held(seats, h.(open := open), n + 1)
  {
    HolderNow(h.first, h.handovers, n);
    HolderNow(h.first, h.handovers, n + 1);
    assert HeldAt(seats, h.first, h.handovers, n);
  }

  lemma ExtendByNomination(events: seq<Event>, seats: seq<Option<Seat>>, n: nat, h: History)
    requires Follows(events, seats) && n < |events| && Explains(events, seats, n, h)
    requires events[n].Nominated?
    ensures Explains(events, seats, n + 1, h.(open := Some(n)))
  {
    assert MovesAt(events, seats, n);
    KeepHeld(seats, h, Some(n), n);
  }

  lemma ExtendByNothing(events: seq<Event>, seats: seq<Option<Seat>>, n: nat, h: History)
    requires Follows(events, seats) && n < |events| && Explains(events, seats, n, h)
    requires !events[n].Accepted? && !events[n].Nominated?
    ensures Explains(events, seats, n + 1, h)
  {
    assert MovesAt(events, seats, n);
    KeepHeld(seats, h, h.open, n);
  }

  /** The history up to one more event, from the history up to this one. */
  lemma ExtendHistory(events: seq<Event>, seats: seq<Option<Seat>>, n: nat, h: History) returns (h': History)
    requires Follows(events, seats) && n < |events| && Explains(events, seats, n, h)
    ensures Explains(events, seats, n + 1, h')
  {
    if events[n].Accepted? {
      h' := ExtendByAcceptance(events, seats, n, h);
    } else if events[n].Nominated? {
      ExtendByNomination(events, seats, n, h);
      h' := h.(open := Some(n));
    } else {
      ExtendByNothing(events, seats, n, h);
      h' := h;
    }
  }

  /** A mint not yet configured has no history. */
  ghost predicate Untouched(events: seq<Event>, seats: seq<Option<Seat>>, n: nat)
    requires |seats| == |events| + 1 && n <= |events|
  {
    && (forall i :: 0 <= i <= n ==> seats[i] == None)
    && (forall i :: 0 <= i < n ==> events[i] == Nothing)
  }

  lemma BeginHistory(events: seq<Event>, seats: seq<Option<Seat>>, n: nat)
    requires Follows(events, seats) && n < |events| && Untouched(events, seats, n) && events[n].Started?
    ensures Explains(events, seats, n + 1, History(n, events[n].who, [], None))
  {
    assert MovesAt(events, seats, n);
  }

  lemma StayUntouched(events: seq<Event>, seats: seq<Option<Seat>>, n: nat)
    requires Follows(events, seats) && n < |events| && Untouched(events, seats, n) && !events[n].Started?
    ensures Untouched(events, seats, n + 1)
  {
    assert MovesAt(events, seats, n);
  }

  /** Whatever the events, the authority has a history that explains them. */
  lemma {:induction false} HistoryOf(events: seq<Event>, seats: seq<Option<Seat>>, n: nat) returns (h: Option<History>)
    requires Follows(events, seats) && n <= |events|
    ensures h.None? ==> Untouched(events, seats, n)
    ensures h.Some? ==> Explains(events, seats, n, h.value)
    decreases n
  {
    if n == 0 {
      h := None;
    } else {
      var g := HistoryOf(events, seats, n - 1);
      if g.Some? {
        var now := ExtendHistory(events, seats, n - 1, g.value);
        h := Some(now);
      } else if events[n - 1].Started? {
        BeginHistory(events, seats, n - 1);
        h := Some(History(n - 1, events[n - 1].who, [], None));
      } else {
        StayUntouched(events, seats, n - 1);
        h := None;
      }
    }
  }

  // ---------------------------------------------------------------- consequences

  predicate Growing(hs: seq<Handover>)
  {
    forall k, l :: 0 <= k < l < |hs| ==> hs[k].accepted < hs[l].accepted
  }

  lemma {:induction false} CompletedMonotone(hs: seq<Handover>, i: nat, j: nat)
    requires i <= j
    requires Growing(hs)
    ensures Completed(hs, i) <= Completed(hs, j)
    ensures forall k :: 0 <= k < |hs| ==> (k < Completed(hs, i) <==> hs[k].accepted < i)
  {
    if hs != [] {
      CompletedMonotone(hs[..|hs| - 1], i, j);
      assert forall k :: 0 <= k < |hs| - 1 ==> hs[..|hs| - 1][k] == hs[k];
    }
  }

  lemma SubChain(events: seq<Event>, seats: seq<Option<Seat>>, hs: seq<Handover>, i: nat, j: nat)
    requires |seats| == |events| + 1 && IsChain(events, seats, hs) && i <= j <= |hs|
    ensures IsChain(events, seats, hs[i..j])
  {
    forall k | 0 <= k < j - i ensures IsHandover(events, seats, hs[i..j][k]) {
      assert hs[i..j][k] == hs[i + k];
    }
  }

  lemma ChainAcceptancesGrow(events: seq<Event>, seats: seq<Option<Seat>>, hs: seq<Handover>)
    requires |seats| == |events| + 1 && IsChain(events, seats, hs)
    ensures Growing(hs)
  {
    forall k, l | 0 <= k < l < |hs| ensures hs[k].accepted < hs[l].accepted {
      assert IsHandover(events, seats, hs[l]);
    }
  }

  predicate Linked(first: Key, hs: seq<Handover>)
  {
    forall k :: 0 <= k < |hs| ==> LinkedAt(first, hs, k)
  }

  predicate LinkedAt(first: Key, hs: seq<Handover>, k: nat)
    requires k < |hs|
  {
    hs[k].from == if k == 0 then first else hs[k - 1].to
  }

  /** Two points with different holders have hand-overs between them, from one to the other. */
  lemma HoldersLinked(first: Key, hs: seq<Handover>, p: nat, q: nat) returns (i: nat, j: nat)
    requires p <= q && Linked(first, hs) && Growing(hs)
    requires Holder(first, hs, p) != Holder(first, hs, q)
    ensures i < j <= |hs|
    ensures hs[i].from == Holder(first, hs, p) && hs[j - 1].to == Holder(first, hs, q)
    ensures forall k :: i <= k < j ==> p <= hs[k].accepted < q
  {
    CompletedMonotone(hs, p, q);
    CompletedMonotone(hs, q, q);
    i, j := Completed(hs, p), Completed(hs, q);
    assert LinkedAt(first, hs, i);
  }

  lemma BetweenPoints(events: seq<Event>, seats: seq<Option<Seat>>, first: Key, hs: seq<Handover>, p: nat, q: nat)
    returns (between: seq<Handover>)
    requires |seats| == |events| + 1 && IsChain(events, seats, hs) && Linked(first, hs)
    requires p <= q && Holder(first, hs, p) != Holder(first, hs, q)
    ensures between != [] && IsChain(events, seats, between)
    ensures between[0].from == Holder(first, hs, p)
    ensures between[|between| - 1].to == Holder(first, hs, q)
    ensures forall k :: 0 <= k < |between| ==> p <= between[k].accepted < q
  {
    ChainAcceptancesGrow(events, seats, hs);
    var i, j := HoldersLinked(first, hs, p, q);
    SubChain(events, seats, hs, i, j);
    between := hs[i..j];
    assert between[0] == hs[i] && between[|between| - 1] == hs[j - 1];
    assert forall k :: 0 <= k < |between| ==> between[k] == hs[i + k];
  }

  lemma ExplainedHolders(events: seq<Event>, seats: seq<Option<Seat>>, n: nat, h: History, p: nat)
    requires |seats| == |events| + 1 && p <= n <= |events| && Explains(events, seats, n, h) && seats[p].Some?
    ensures IsChain(events, seats, h.handovers) && Linked(h.first, h.handovers)
    ensures seats[p].value.authority == Holder(h.first, h.handovers, p)
  {
    assert p > h.start && HeldAt(seats, h.first, h.handovers, p);
  }

  /** If the authority at two points of a run differs, hand-overs accepted between those
      points lead from the one authority to the other. */
  lemma Provenance(events: seq<Event>, seats: seq<Option<Seat>>, p: nat, q: nat) returns (between: seq<Handover>)
    requires Follows(events, seats) && p <= q <= |events|
    requires seats[p].Some? && seats[q].Some? && seats[p].value.authority != seats[q].value.authority
    ensures between != [] && IsChain(events, seats, between)
    ensures between[0].from == seats[p].value.authority
    ensures between[|between| - 1].to == seats[q].value.authority
    ensures forall k :: 0 <= k < |between| ==> p <= between[k].accepted < q
  {
    var g := HistoryOf(events, seats, q);
    ExplainedHolders(events, seats, q, g.value, p);
    ExplainedHolders(events, seats, q, g.value, q);
    between := BetweenPoints(events, seats, g.value.first, g.value.handovers, p, q);
  }

  /** A key that is nobody's never becomes the authority, if it did not start as it. */
  lemma AuthorityNotDefault(events: seq<Event>, seats: seq<Option<Seat>>, n: nat)
    requires Follows(events, seats) && n <= |events|
    requires forall i :: 0 <= i < |events| && events[i].Started? ==> events[i].who != DEFAULT
    ensures seats[n].Some? ==> seats[n].value.authority != DEFAULT
  {
    var h := HistoryOf(events, seats, n);
    if h.Some? {
      var hs := h.value.handovers;
      assert HeldAt(seats, h.value.first, hs, n);
      HolderNow(h.value.first, hs, n);
      if hs != [] { assert IsHandover(events, seats, hs[|hs| - 1]); }
    }
  }

  /** The latest nomination so far, and that nobody has accepted since. */
  predicate LatestUnconsumed(events: seq<Event>, n: nat, p: int)
    requires n <= |events|
  {
    0 <= p < n && events[p].Nominated? && forall i :: p < i < n ==> !events[i].Nominated? && !events[i].Accepted?
  }

  /** Someone is pending exactly when the latest nomination names somebody and has not been
      consumed; and then it is that somebody. */
  lemma PendingIsLatestNomination(events: seq<Event>, seats: seq<Option<Seat>>, n: nat, k: Key)
    requires Follows(events, seats) && n <= |events| && k != DEFAULT
    ensures (seats[n].Some? && seats[n].value.pending == k) <==>
      exists p :: LatestUnconsumed(events, n, p) && events[p].to == k
  {
    var g := HistoryOf(events, seats, n);
    if g.Some? {
      var h := g.value;
      var hs := h.handovers;
      if h.open.Some? {
        assert LatestUnconsumed(events, n, h.open.value);
        assert forall p :: LatestUnconsumed(events, n, p) ==> p == h.open.value;
      } else {
        if hs != [] { assert IsHandover(events, seats, hs[|hs| - 1]); }
        assert forall p :: !LatestUnconsumed(events, n, p);
      }
    }
  }

  /** An acceptance consumes the latest nomination, not consumed before, of the accepting key. */
  lemma AcceptanceConsumes(events: seq<Event>, seats: seq<Option<Seat>>, a: nat) returns (p: nat)
    requires Follows(events, seats) && a < |events| && events[a].Accepted?
    ensures p < a && LatestUnconsumed(events, a, p) && events[p].to == events[a].who != DEFAULT
  {
    assert MovesAt(events, seats, a);
    PendingIsLatestNomination(events, seats, a, events[a].who);
    p :| LatestUnconsumed(events, a, p) && events[p].to == events[a].who;
  }
}
