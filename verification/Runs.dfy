/** Runs of any length, over any mints and signers, with anything happening around the program. */
module Runs {
  import opened Bytes
  import opened Results
  import opened Keys
  import opened Program
  import opened Registry
  import opened Handovers

  // ---------------------------------------------------------------- steps

  /** The instruction of a step that is about this mint. */
  predicate About(step: Step, m: Key)
  {
    step.Call? && step.instruction.mint == m
  }

  function NextView(v: Option<Record>, step: Step, succeeded: bool, m: Key): Option<Record>
    requires succeeded && About(step, m) && v.None? ==> step.instruction.InitializeConfig?
  {
    if succeeded && About(step, m) then Some(Effect(v, step.instruction)) else v
  }

  /** A step's success, told from the table. */
  predicate Permitted(w: World, mints: map<Key, Mint>, funded: set<Key>, v: Option<Record>, step: Step)
  {
    step.Call? && WellAddressed(w, step.instruction) && Granted(w, mints, funded, v, step.signers, step.instruction)
  }

  lemma StepRefines(w: World, s: State, step: Step, m: Key)
    requires w.Separated() && Inv(w, s) && StepInPlay(w, step) && m in w.keys
    ensures Inv(w, After(w, s, step))
    ensures About(step, m) ==> (Succeeds(w, s, step) <==> Permitted(w, s.mints, s.funded, View(w, s, m), step))
    ensures Succeeds(w, s, step) && About(step, m) && View(w, s, m).None? ==> step.instruction.InitializeConfig?
    ensures View(w, After(w, s, step), m) == NextView(View(w, s, m), step, Succeeds(w, s, step), m)
  {
    if step.Call? {
      InstructionRefines(w, s, step.signers, step.instruction);
    } else {
      OutsideStep(w, s, step);
    }
  }

  lemma StepKeepsInv(w: World, s: State, step: Step)
    requires w.Separated() && Inv(w, s) && StepInPlay(w, step)
    ensures Inv(w, After(w, s, step))
  {
    if step.Call? {
      InstructionRefines(w, s, step.signers, step.instruction);
    } else {
      OutsideStep(w, s, step);
    }
  }

  lemma OutsideStep(w: World, s: State, step: Step)
    requires w.Separated() && Inv(w, s) && StepInPlay(w, step) && !step.Call?
    ensures Inv(w, After(w, s, step))
    ensures forall m :: m in w.keys ==> View(w, After(w, s, step), m) == View(w, s, m)
  {
    var t := After(w, s, step);
    forall u, b: byte | w.InPlay(u)
      ensures w.Addr(u, b) in t.accounts <==> w.Addr(u, b) in s.accounts
      ensures w.Addr(u, b) in s.accounts ==> t.accounts[w.Addr(u, b)] == s.accounts[w.Addr(u, b)]
    {
      assert w.HookAddress(w.Addr(u, b));
    }
    forall u, b: byte ensures ProperAt(w, t, u, b) {
      assert ProperAt(w, s, u, b);
      if w.InPlay(u) && !u.AttestationSeed? { assert w.InPlay(ConfigSeed(u.mint)); }
    }
    forall m | m in w.keys ensures View(w, t, m) == View(w, s, m) {
      assert w.InPlay(ConfigSeed(m)) && w.InPlay(ListSeed(m));
      assert forall x :: x in w.keys ==> w.InPlay(WhitelistSeed(m, x));
      SameWhitelist(w, s, t, m);
    }
  }

  // ---------------------------------------------------------------- runs

  ghost predicate RunInPlay(w: World, steps: seq<Step>)
  {
    forall i :: 0 <= i < |steps| ==> StepInPlay(w, steps[i])
  }

  /** A start before the program has any account of its own. */
  ghost predicate Genesis(w: World, s: State)
  {
    forall u, b: byte :: w.InPlay(u) ==> w.Addr(u, b) !in s.accounts
  }

  lemma GenesisIsProper(w: World, s: State, m: Key)
    requires Genesis(w, s) && m in w.keys
    ensures Inv(w, s) && View(w, s, m) == None
  {
    assert w.InPlay(ConfigSeed(m));
  }

  function StateAt(w: World, s: State, steps: seq<Step>, i: nat): State
    requires i <= |steps|
  {
    Run(w, s, steps[..i])
  }

  lemma NextState(w: World, s: State, steps: seq<Step>, i: nat)
    requires i < |steps|
    ensures StateAt(w, s, steps, i + 1) == After(w, StateAt(w, s, steps, i), steps[i])
  {
    assert steps[..i + 1][..i] == steps[..i];
  }

  lemma {:induction false} RunKeepsInv(w: World, s: State, steps: seq<Step>, i: nat)
    requires w.Separated() && Inv(w, s) && RunInPlay(w, steps) && i <= |steps|
    ensures Inv(w, StateAt(w, s, steps, i))
    decreases i
  {
    if i == 0 {
      assert steps[..0] == [];
    } else {
      RunKeepsInv(w, s, steps, i - 1);
      NextState(w, s, steps, i - 1);
      StepKeepsInv(w, StateAt(w, s, steps, i - 1), steps[i - 1]);
    }
  }

  predicate SucceedsAt(w: World, s: State, steps: seq<Step>, i: nat)
    requires i < |steps|
  {
    Succeeds(w, StateAt(w, s, steps, i), steps[i])
  }

  function ViewAt(w: World, s: State, steps: seq<Step>, m: Key, i: nat): Option<Record>
    requires i <= |steps|
  {
    View(w, StateAt(w, s, steps, i), m)
  }

  lemma NextViewAt(w: World, s: State, steps: seq<Step>, m: Key, i: nat)
    requires w.Separated() && Inv(w, s) && RunInPlay(w, steps) && m in w.keys && i < |steps|
    ensures var t := StateAt(w, s, steps, i);
      About(steps[i], m) ==>
        (SucceedsAt(w, s, steps, i) <==> Permitted(w, t.mints, t.funded, ViewAt(w, s, steps, m, i), steps[i]))
    ensures SucceedsAt(w, s, steps, i) && About(steps[i], m) && ViewAt(w, s, steps, m, i).None? ==>
      steps[i].instruction.InitializeConfig?
    ensures ViewAt(w, s, steps, m, i + 1)
         == NextView(ViewAt(w, s, steps, m, i), steps[i], SucceedsAt(w, s, steps, i), m)
  {
    RunKeepsInv(w, s, steps, i);
    NextState(w, s, steps, i);
    StepRefines(w, StateAt(w, s, steps, i), steps[i], m);
  }

  // ---------------------------------------------------------------- hand-overs of authority

  /** What step `i` was to the authority of a mint. */
  function EventAt(w: World, s: State, steps: seq<Step>, m: Key, i: nat): Event
    requires i < |steps|
  {
    if !About(steps[i], m) || !SucceedsAt(w, s, steps, i) then Nothing
    else match steps[i].instruction
      case InitializeConfig(authority, _, _, _, _, _) => Started(authority, steps[i].signers)
      case TransferAuthority(authority, newAuthority, _, _) => Nominated(authority, newAuthority, steps[i].signers)
      case AcceptAuthority(pending, _, _) => Accepted(pending, steps[i].signers)
      case _ => Nothing
  }

  function SeatOf(v: Option<Record>): Option<Seat>
  {
    if v.None? then None else Some(Seat(v.value.authority, v.value.pending))
  }

  function Events(w: World, s: State, steps: seq<Step>, m: Key): (events: seq<Event>)
    ensures |events| == |steps|
    ensures forall i :: 0 <= i < |steps| ==> events[i] == EventAt(w, s, steps, m, i)
  {
    seq(|steps|, i requires 0 <= i < |steps| => EventAt(w, s, steps, m, i))
  }

  function Seats(w: World, s: State, steps: seq<Step>, m: Key): (seats: seq<Option<Seat>>)
    ensures |seats| == |steps| + 1
    ensures forall i :: 0 <= i <= |steps| ==> seats[i] == SeatOf(ViewAt(w, s, steps, m, i))
  {
    seq(|steps| + 1, i requires 0 <= i <= |steps| => SeatOf(ViewAt(w, s, steps, m, i)))
  }

  lemma SeatMoves(w: World, s: State, steps: seq<Step>, m: Key, i: nat)
    requires w.Separated() && Inv(w, s) && RunInPlay(w, steps) && m in w.keys && i < |steps|
    ensures Moves(SeatOf(ViewAt(w, s, steps, m, i)), EventAt(w, s, steps, m, i), SeatOf(ViewAt(w, s, steps, m, i + 1)))
  {
    NextViewAt(w, s, steps, m, i);
  }

  /** The authority of any mint moves through any run as the hand-over machine says, so that
      what is proved of that machine holds of the run. */
  lemma RunFollowsHandovers(w: World, s: State, steps: seq<Step>, m: Key)
    requires w.Separated() && Genesis(w, s) && RunInPlay(w, steps) && m in w.keys
    ensures Follows(Events(w, s, steps, m), Seats(w, s, steps, m))
  {
    GenesisIsProper(w, s, m);
    assert steps[..0] == [];
    forall i | 0 <= i < |steps| ensures MovesAt(Events(w, s, steps, m), Seats(w, s, steps, m), i) {
      SeatMoves(w, s, steps, m, i);
    }
  }

  /** If a mint's authority at a later point of a run differs from that at an earlier one,
      hand-overs accepted in between lead from the one to the other. */
  lemma AuthorityProvenance(w: World, s: State, steps: seq<Step>, m: Key, p: nat, q: nat)
    returns (between: seq<Handover>)
    requires w.Separated() && Genesis(w, s) && RunInPlay(w, steps) && m in w.keys && p <= q <= |steps|
    requires var a, b := ViewAt(w, s, steps, m, p), ViewAt(w, s, steps, m, q);
      a.Some? && b.Some? && a.value.authority != b.value.authority
    ensures between != [] && IsChain(Events(w, s, steps, m), Seats(w, s, steps, m), between)
    ensures between[0].from == ViewAt(w, s, steps, m, p).value.authority
    ensures between[|between| - 1].to == ViewAt(w, s, steps, m, q).value.authority
    ensures forall k :: 0 <= k < |between| ==> p <= between[k].accepted < q
  {
    RunFollowsHandovers(w, s, steps, m);
    between := Provenance(Events(w, s, steps, m), Seats(w, s, steps, m), p, q);
  }

  /** A pending authority is the nominee of the latest successful nomination, not yet
      consumed by an acceptance, and there is one whenever that nominee is somebody. */
  lemma PendingAuthority(w: World, s: State, steps: seq<Step>, m: Key, n: nat, k: Key)
    requires w.Separated() && Genesis(w, s) && RunInPlay(w, steps) && m in w.keys && n <= |steps| && k != DEFAULT
    ensures var v := ViewAt(w, s, steps, m, n);
      (v.Some? && v.value.pending == k) <==>
      exists p :: LatestUnconsumed(Events(w, s, steps, m), n, p) && Events(w, s, steps, m)[p].to == k
  {
    RunFollowsHandovers(w, s, steps, m);
    PendingIsLatestNomination(Events(w, s, steps, m), Seats(w, s, steps, m), n, k);
  }

  /** Every acceptance in a run consumes a nomination of the accepting key: the latest one,
      and not consumed before. */
  lemma AcceptanceConsumesNomination(w: World, s: State, steps: seq<Step>, m: Key, a: nat) returns (p: nat)
    requires w.Separated() && Genesis(w, s) && RunInPlay(w, steps) && m in w.keys && a < |steps|
    requires EventAt(w, s, steps, m, a).Accepted?
    ensures p < a && LatestUnconsumed(Events(w, s, steps, m), a, p)
    ensures EventAt(w, s, steps, m, p).Nominated?
    ensures EventAt(w, s, steps, m, p).to == EventAt(w, s, steps, m, a).who != DEFAULT
  {
    var events, seats := Events(w, s, steps, m), Seats(w, s, steps, m);
    RunFollowsHandovers(w, s, steps, m);
    p := AcceptanceConsumes(events, seats, a);
  }

  /** Two acceptances consume two nominations: that of the later one comes after the earlier
      acceptance. */
  lemma AcceptancesConsumeNominations(w: World, s: State, steps: seq<Step>, m: Key, a: nat, b: nat)
    returns (p: nat, q: nat)
    requires w.Separated() && Genesis(w, s) && RunInPlay(w, steps) && m in w.keys && a < b < |steps|
    requires EventAt(w, s, steps, m, a).Accepted? && EventAt(w, s, steps, m, b).Accepted?
    ensures p < a < q < b
    ensures EventAt(w, s, steps, m, p).Nominated? && EventAt(w, s, steps, m, q).Nominated?
    ensures EventAt(w, s, steps, m, p).to == EventAt(w, s, steps, m, a).who != DEFAULT
    ensures EventAt(w, s, steps, m, q).to == EventAt(w, s, steps, m, b).who != DEFAULT
    ensures LatestUnconsumed(Events(w, s, steps, m), a, p) && LatestUnconsumed(Events(w, s, steps, m), b, q)
  {
    p := AcceptanceConsumesNomination(w, s, steps, m, a);
    q := AcceptanceConsumesNomination(w, s, steps, m, b);
    assert Events(w, s, steps, m)[a].Accepted?;
  }

  /** The default key never becomes an authority, unless it signed an initialisation. */
  lemma AuthorityIsSomebody(w: World, s: State, steps: seq<Step>, m: Key, n: nat)
    requires w.Separated() && Genesis(w, s) && RunInPlay(w, steps) && m in w.keys && n <= |steps|
    requires forall i :: 0 <= i < |steps| && steps[i].Call? ==> DEFAULT !in steps[i].signers
    ensures ViewAt(w, s, steps, m, n).Some? ==> ViewAt(w, s, steps, m, n).value.authority != DEFAULT
  {
    var events, seats := Events(w, s, steps, m), Seats(w, s, steps, m);
    RunFollowsHandovers(w, s, steps, m);
    forall i | 0 <= i < |events| && events[i].Started? ensures events[i].who != DEFAULT {
      assert MovesAt(events, seats, i);
    }
    AuthorityNotDefault(events, seats, n);
  }

  // ---------------------------------------------------------------- the whitelist ledger

  /** What a step adds to the count of a wallet's successful additions less removals. */
  function Delta(step: Step, succeeded: bool, m: Key, x: Key): int
  {
    if !succeeded || !About(step, m) then 0
    else match step.instruction
      case AddToWhitelist(_, _, _, _, y) => if x == y then 1 else 0
      case RemoveFromWhitelist(_, _, _, _, y) => if x == y then -1 else 0
      case _ => 0
  }

  /** Successful additions less successful removals of a wallet, before step `n`. */
  function Balance(w: World, s: State, steps: seq<Step>, m: Key, x: Key, n: nat): int
    requires n <= |steps|
    decreases n
  {
    if n == 0 then 0
    else Balance(w, s, steps, m, x, n - 1) + Delta(steps[n - 1], SucceedsAt(w, s, steps, n - 1), m, x)
  }

  predicate Whitelisted(v: Option<Record>, x: Key)
  {
    v.Some? && x in v.value.whitelist
  }

  function Tally(v: Option<Record>, x: Key): int
  {
    if Whitelisted(v, x) then 1 else 0
  }

  lemma StepTally(w: World, s: State, steps: seq<Step>, m: Key, x: Key, i: nat)
    requires w.Separated() && Inv(w, s) && RunInPlay(w, steps) && m in w.keys && i < |steps|
    ensures Tally(ViewAt(w, s, steps, m, i + 1), x)
         == Tally(ViewAt(w, s, steps, m, i), x) + Delta(steps[i], SucceedsAt(w, s, steps, i), m, x)
  {
    NextViewAt(w, s, steps, m, i);
  }

  lemma {:induction false} LedgerBalances(w: World, s: State, steps: seq<Step>, m: Key, x: Key, n: nat)
    requires w.Separated() && Genesis(w, s) && RunInPlay(w, steps) && m in w.keys && n <= |steps|
    ensures Balance(w, s, steps, m, x, n) == Tally(ViewAt(w, s, steps, m, n), x)
    decreases n
  {
    GenesisIsProper(w, s, m);
    if n == 0 {
      assert steps[..0] == [];
    } else {
      LedgerBalances(w, s, steps, m, x, n - 1);
      StepTally(w, s, steps, m, x, n - 1);
    }
  }

  /** Over any run the additions of a wallet exceed its removals by one or not at all, and by
      one exactly when the program owns an entry for it at its whitelist address. */
  lemma WhitelistLedger(w: World, s: State, steps: seq<Step>, m: Key, x: Key)
    requires w.Separated() && w.program != DEFAULT && Genesis(w, s) && RunInPlay(w, steps)
    requires m in w.keys && x in w.keys
    ensures var t, a := Run(w, s, steps), w.Pda(WhitelistSeed(m, x));
      && 0 <= Balance(w, s, steps, m, x, |steps|) <= 1
      && (Balance(w, s, steps, m, x, |steps|) == 1 <==>
           LoadEntry(w, t, a) == Ok(WhitelistEntry(x, w.Bump(WhitelistSeed(m, x)))))
      && (Balance(w, s, steps, m, x, |steps|) == 1 <==> OwnerAt(t, a) == w.program)
  {
    GenesisIsProper(w, s, m);
    LedgerBalances(w, s, steps, m, x, |steps|);
    RunKeepsInv(w, s, steps, |steps|);
    assert steps[..|steps|] == steps;
    EntryIffWhitelisted(w, Run(w, s, steps), m, x);
  }

  lemma EntryIffWhitelisted(w: World, s: State, m: Key, x: Key)
    requires Inv(w, s) && m in w.keys && x in w.keys
    ensures var a := w.Pda(WhitelistSeed(m, x));
      && (Whitelisted(View(w, s, m), x) <==> LoadEntry(w, s, a) == Ok(WhitelistEntry(x, w.Bump(WhitelistSeed(m, x)))))
      && (w.program != DEFAULT ==> (Whitelisted(View(w, s, m), x) <==> OwnerAt(s, a) == w.program))
  {
    CanonicalEntry(w, s, m, x);
  }
}
