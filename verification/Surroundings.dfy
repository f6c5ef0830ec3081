/** What runs do to everything that is not the program's: time, lamports, mints, token accounts
    and foreign accounts are as the steps around the program leave them, and no instruction
    touches them. */
module Surroundings {
  import opened Bytes
  import opened Results
  import opened Keys
  import opened Program
  import opened Registry
  import opened Runs

  function Entry<V>(m: map<Key, V>, a: Key): Option<V>
  {
    if a in m then Some(m[a]) else None
  }

  /** The seconds that pass in a run. */
  function Elapsed(steps: seq<Step>): nat
  {
    if steps == [] then 0
    else
      var last := steps[|steps| - 1];
      Elapsed(steps[..|steps| - 1]) + if last.Tick? then last.seconds else 0
  }

  ghost predicate FundedIn(steps: seq<Step>, a: Key)
  {
    exists i :: 0 <= i < |steps| && steps[i] == Fund(a)
  }

  /** What a step itself says about an address, if it says anything. */
  function MintWritten(step: Step, a: Key): Option<Option<Mint>>
  {
    if step.SetMint? && step.address == a then Some(Some(step.mint))
    else if step.CloseMint? && step.address == a then Some(None)
    else None
  }

  function TokenWritten(step: Step, a: Key): Option<Option<TokenAccount>>
  {
    if step.SetToken? && step.address == a then Some(Some(step.token))
    else if step.CloseToken? && step.address == a then Some(None)
    else None
  }

  function AccountWritten(step: Step, a: Key): Option<Option<Account>>
  {
    if step.Deposit? && step.address == a then Some(Some(step.account))
    else if step.Withdraw? && step.address == a then Some(None)
    else None
  }

  /** The last thing that a run says about an address, or what was there before it. */
  function Latest<V>(before: Option<V>, writes: seq<Option<Option<V>>>): Option<V>
  {
    if writes == [] then before
    else if writes[|writes| - 1].Some? then writes[|writes| - 1].value
    else Latest(before, writes[..|writes| - 1])
  }

  function Writes<V>(written: (Step, Key) -> Option<Option<V>>, steps: seq<Step>, a: Key): (ws: seq<Option<Option<V>>>)
    ensures |ws| == |steps|
    ensures forall i :: 0 <= i < |steps| ==> ws[i] == written(steps[i], a)
  {
    seq(|steps|, i requires 0 <= i < |steps| => written(steps[i], a))
  }

  lemma LatestOneMore<V>(before: Option<V>, written: (Step, Key) -> Option<Option<V>>, steps: seq<Step>, a: Key)
    requires steps != []
    ensures var front, last := steps[..|steps| - 1], steps[|steps| - 1];
      Latest(before, Writes(written, steps, a)) ==
        if written(last, a).Some? then written(last, a).value else Latest(before, Writes(written, front, a))
  {
    var front := steps[..|steps| - 1];
    assert Writes(written, steps, a)[..|steps| - 1] == Writes(written, front, a);
  }

  /** What one step does around the program. */
  lemma StepAround(w: World, s: State, step: Step, a: Key)
    requires w.Separated() && Inv(w, s) && StepInPlay(w, step)
    ensures var t := After(w, s, step);
      && t.clock == s.clock + (if step.Tick? then step.seconds else 0)
      && (a in t.funded <==> a in s.funded || step == Fund(a))
      && Entry(t.mints, a) == (if MintWritten(step, a).Some? then MintWritten(step, a).value else Entry(s.mints, a))
      && Entry(t.tokens, a) == (if TokenWritten(step, a).Some? then TokenWritten(step, a).value else Entry(s.tokens, a))
      && (!w.HookAddress(a) ==>
           Entry(t.accounts, a)
           == if AccountWritten(step, a).Some? then AccountWritten(step, a).value else Entry(s.accounts, a))
  {
    if step.Call? { InstructionRefines(w, s, step.signers, step.instruction); }
  }

  /** After any run the clock has moved by the seconds that passed, an address has been sent
      lamports if it had before or was in the run, and every mint, token account and foreign
      account is as last written around the program; no instruction changes any of them. */
  lemma {:induction false} SurroundingsAfterRun(w: World, s: State, steps: seq<Step>, a: Key)
    requires w.Separated() && Inv(w, s) && RunInPlay(w, steps)
    ensures var t := Run(w, s, steps);
      && t.clock == s.clock + Elapsed(steps)
      && (a in t.funded <==> a in s.funded || FundedIn(steps, a))
      && Entry(t.mints, a) == Latest(Entry(s.mints, a), Writes(MintWritten, steps, a))
      && Entry(t.tokens, a) == Latest(Entry(s.tokens, a), Writes(TokenWritten, steps, a))
      && (!w.HookAddress(a) ==> Entry(t.accounts, a) == Latest(Entry(s.accounts, a), Writes(AccountWritten, steps, a)))
    decreases |steps|
  {
    if steps != [] {
      var front, last := steps[..|steps| - 1], steps[|steps| - 1];
      SurroundingsAfterRun(w, s, front, a);
      RunKeepsInv(w, s, front, |front|);
      assert front[..|front|] == front;
      StepAround(w, Run(w, s, front), last, a);
      FundedOneMore(steps, a);
      LatestOneMore(Entry(s.mints, a), MintWritten, steps, a);
      LatestOneMore(Entry(s.tokens, a), TokenWritten, steps, a);
      LatestOneMore(Entry(s.accounts, a), AccountWritten, steps, a);
    }
  }

  lemma FundedOneMore(steps: seq<Step>, a: Key)
    requires steps != []
    ensures FundedIn(steps, a) <==> FundedIn(steps[..|steps| - 1], a) || steps[|steps| - 1] == Fund(a)
  {
    var front := steps[..|steps| - 1];
    if FundedIn(front, a) {
      var i :| 0 <= i < |front| && front[i] == Fund(a);
      assert steps[i] == Fund(a);
    }
    if FundedIn(steps, a) && steps[|steps| - 1] != Fund(a) {
      var i :| 0 <= i < |steps| && steps[i] == Fund(a);
      assert front[i] == Fund(a);
    }
  }
}
