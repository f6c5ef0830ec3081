/** What runs leave alone: mints they are not about, and mints whose keys did not sign. */
module Isolation {
  import opened Bytes
  import opened Results
  import opened Keys
  import opened Metas
  import opened ListLayout
  import opened Program
  import opened Registry
  import opened Runs

  predicate SameAt(s: State, t: State, a: Key)
  {
    (a in s.accounts <==> a in t.accounts) && (a in s.accounts ==> s.accounts[a] == t.accounts[a])
  }

  /** The addresses of the program that belong to a mint. */
  predicate Belongs(u: SeedUse, m: Key)
  {
    !u.AttestationSeed? && u.mint == m
  }

  /** A mint's row of the table determines every account of the program behind it. */
  lemma TableDeterminesAccounts(w: World, s: State, t: State, m: Key)
    requires Inv(w, s) && Inv(w, t) && m in w.keys && View(w, s, m) == View(w, t, m)
    ensures forall u, b: byte :: w.InPlay(u) && Belongs(u, m) ==> SameAt(s, t, w.Addr(u, b))
  {
    forall u, b: byte | w.InPlay(u) && Belongs(u, m) ensures SameAt(s, t, w.Addr(u, b)) {
      HalfDetermined(w, s, t, u, b);
      HalfDetermined(w, t, s, u, b);
    }
  }

  lemma HalfDetermined(w: World, s: State, t: State, u: SeedUse, b: byte)
    requires Inv(w, s) && Inv(w, t) && w.InPlay(u) && !u.AttestationSeed? && View(w, s, u.mint) == View(w, t, u.mint)
    ensures w.Addr(u, b) in s.accounts ==> SameAt(s, t, w.Addr(u, b))
  {
    if w.Addr(u, b) in s.accounts {
      var m := u.mint;
      assert ProperAt(w, s, u, b);
      CanonicalConfig(w, s, m);
      CanonicalConfig(w, t, m);
      if u.WhitelistSeed? {
        assert u.wallet in WhitelistOf(w, s, m);
        assert u.wallet in WhitelistOf(w, t, m);
      }
      assert ProperAt(w, t, u, b);
    }
  }

  // ---------------------------------------------------------------- the stored list

  /** In every run a stored list is the one that the current config determines, and reads
      back as its entries. */
  lemma ListMatchesConfig(w: World, s: State, steps: seq<Step>, m: Key)
    requires w.Separated() && Genesis(w, s) && RunInPlay(w, steps) && m in w.keys
    requires w.Pda(ListSeed(m)) in Run(w, s, steps).accounts
    ensures var t, l := Run(w, s, steps), w.Pda(ListSeed(m));
      && Configured(w, t, m)
      && t.accounts[l].owner == w.program
      && var c := ConfigOf(w, t, m);
         && BytesAt(t, l) == ListBytes(c)
         && DecodeList(BytesAt(t, l)) == Some(MetasFor(c.credential, c.schema, c.sasProgram))
         && (forall k :: 0 <= k < 6 ==> NoFlagsAt(BytesAt(t, l), MetasFor(c.credential, c.schema, c.sasProgram), k))
  {
    GenesisIsProper(w, s, m);
    RunKeepsInv(w, s, steps, |steps|);
    assert steps[..|steps|] == steps;
    var t := Run(w, s, steps);
    CanonicalList(w, t, m);
    var c := ConfigOf(w, t, m);
    ListReadsBack(c);
    forall k | 0 <= k < 6 ensures NoFlagsAt(ListBytes(c), MetasFor(c.credential, c.schema, c.sasProgram), k) {
      PlainEntries(c, k);
    }
  }

  /** Entry `k` is neither a signer nor writable, and its two flag bytes are zero. */
  predicate NoFlagsAt(bs: seq<byte>, metas: seq<Meta>, k: nat)
  {
    && k < |metas| && |bs| >= 16 + 35 * |metas|
    && !metas[k].isSigner && !metas[k].isWritable
    && bs[16 + 35 * k + 33] == 0 && bs[16 + 35 * k + 34] == 0
  }

  lemma PlainEntries(c: HookConfig, k: nat)
    requires k < 6
    ensures NoFlagsAt(ListBytes(c), MetasFor(c.credential, c.schema, c.sasProgram), k)
  {
    ProgramListPackable(c.credential, c.schema, c.sasProgram);
    EntryAt(MetasFor(c.credential, c.schema, c.sasProgram), k);
  }

  lemma ListReadsBack(c: HookConfig)
    ensures DecodeList(ListBytes(c)) == Some(MetasFor(c.credential, c.schema, c.sasProgram))
  {
    ProgramListPackable(c.credential, c.schema, c.sasProgram);
    var metas := MetasFor(c.credential, c.schema, c.sasProgram);
    ListRoundTrip(metas, []);
    assert EncodeList(metas) + [] == EncodeList(metas);
  }

  /** Two runs, whatever updates they made, that end with the same credential, schema and SAS
      program store the same list; so an updated list is the freshly initialised one. */
  lemma ListPathIndependent(w: World, s: State, steps: seq<Step>, s': State, steps': seq<Step>, m: Key)
    requires w.Separated() && m in w.keys
    requires Genesis(w, s) && RunInPlay(w, steps) && Genesis(w, s') && RunInPlay(w, steps')
    requires var l := w.Pda(ListSeed(m)); l in Run(w, s, steps).accounts && l in Run(w, s', steps').accounts
    requires var v, v' := View(w, Run(w, s, steps), m), View(w, Run(w, s', steps'), m);
      v.Some? && v'.Some? && v.value.credential == v'.value.credential
      && v.value.schema == v'.value.schema && v.value.sasProgram == v'.value.sasProgram
    ensures BytesAt(Run(w, s, steps), w.Pda(ListSeed(m))) == BytesAt(Run(w, s', steps'), w.Pda(ListSeed(m)))
  {
    ListMatchesConfig(w, s, steps, m);
    ListMatchesConfig(w, s', steps', m);
  }

  // ---------------------------------------------------------------- outsiders

  ghost predicate SignedBy(steps: seq<Step>, signers: set<Key>)
  {
    forall i :: 0 <= i < |steps| && steps[i].Call? ==> steps[i].signers <= signers
  }

  lemma {:induction false} OutsidersKeepView(w: World, s: State, steps: seq<Step>, m: Key, outsiders: set<Key>, n: nat)
    requires w.Separated() && Inv(w, s) && RunInPlay(w, steps) && m in w.keys && n <= |steps|
    requires SignedBy(steps, outsiders) && View(w, s, m).Some?
    requires var r := View(w, s, m).value;
      r.authority !in outsiders && (r.pending == DEFAULT || r.pending !in outsiders)
    ensures ViewAt(w, s, steps, m, n) == View(w, s, m)
    decreases n
  {
    if n == 0 {
      assert steps[..0] == [];
    } else {
      OutsidersKeepView(w, s, steps, m, outsiders, n - 1);
      NextViewAt(w, s, steps, m, n - 1);
    }
  }

  /** If neither the authority nor the pending authority of a configured mint is among the
      signers, no run signed only by them changes any account of that mint: its config, its
      list, or its whitelist. */
  lemma OutsiderClosure(w: World, s: State, steps: seq<Step>, m: Key, outsiders: set<Key>)
    requires w.Separated() && Inv(w, s) && RunInPlay(w, steps) && m in w.keys
    requires SignedBy(steps, outsiders) && View(w, s, m).Some?
    requires var r := View(w, s, m).value;
      r.authority !in outsiders && (r.pending == DEFAULT || r.pending !in outsiders)
    ensures forall u, b: byte :: w.InPlay(u) && Belongs(u, m) ==> SameAt(s, Run(w, s, steps), w.Addr(u, b))
  {
    OutsidersKeepView(w, s, steps, m, outsiders, |steps|);
    RunKeepsInv(w, s, steps, |steps|);
    assert steps[..|steps|] == steps;
    TableDeterminesAccounts(w, s, Run(w, s, steps), m);
  }

  // ---------------------------------------------------------------- projection to one mint

  /** The steps of a run that are not instructions about other mints. */
  function Project(steps: seq<Step>, m: Key): seq<Step>
  {
    if steps == [] then []
    else
      var last := steps[|steps| - 1];
      Project(steps[..|steps| - 1], m) + if last.Call? && !About(last, m) then [] else [last]
  }

  /** Whether each instruction about a mint succeeded, in order. */
  function Outcomes(w: World, s: State, steps: seq<Step>, m: Key): seq<bool>
  {
    if steps == [] then []
    else
      var front, last := steps[..|steps| - 1], steps[|steps| - 1];
      Outcomes(w, s, front, m) + if About(last, m) then [Succeeds(w, Run(w, s, front), last)] else []
  }

  /** Two states that a mint cannot tell apart. */
  ghost predicate Agree(w: World, m: Key, s: State, t: State)
  {
    && View(w, s, m) == View(w, t, m)
    && SameOutside(w, s, t)
    && SameSurroundings(s, t)
  }

  lemma SameOutsideChain(w: World, a: State, s: State, t: State, b: State)
    requires SameOutside(w, s, a) && SameOutside(w, s, t) && SameOutside(w, t, b)
    ensures SameOutside(w, a, b)
  {
  }

  lemma CallView(w: World, s: State, step: Step, n: Key)
    requires w.Separated() && Inv(w, s) && StepInPlay(w, step) && step.Call? && n in w.keys
    ensures !About(step, n) ==> View(w, After(w, s, step), n) == View(w, s, n)
    ensures Inv(w, After(w, s, step)) && SameOutside(w, s, After(w, s, step))
    ensures SameSurroundings(s, After(w, s, step))
  {
    InstructionRefines(w, s, step.signers, step.instruction);
  }

  lemma AgreeOnCall(w: World, m: Key, s: State, t: State, step: Step)
    requires w.Separated() && Inv(w, s) && Inv(w, t) && StepInPlay(w, step) && About(step, m) && m in w.keys
    requires Agree(w, m, s, t)
    ensures Succeeds(w, s, step) <==> Succeeds(w, t, step)
    ensures Agree(w, m, After(w, s, step), After(w, t, step))
  {
    InstructionRefines(w, s, step.signers, step.instruction);
    InstructionRefines(w, t, step.signers, step.instruction);
    SameOutsideChain(w, After(w, s, step), s, t, After(w, t, step));
  }

  lemma AgreeOnOutside(w: World, m: Key, s: State, t: State, step: Step)
    requires w.Separated() && Inv(w, s) && Inv(w, t) && StepInPlay(w, step) && !step.Call? && m in w.keys
    requires Agree(w, m, s, t)
    ensures Agree(w, m, After(w, s, step), After(w, t, step))
  {
    OutsideStep(w, s, step);
    OutsideStep(w, t, step);
    OutsideAgrees(w, s, t, step);
  }

  lemma OutsideAgrees(w: World, s: State, t: State, step: Step)
    requires SameOutside(w, s, t) && SameSurroundings(s, t) && !step.Call?
    ensures SameOutside(w, After(w, s, step), After(w, t, step))
    ensures SameSurroundings(After(w, s, step), After(w, t, step))
  {
  }

  lemma AgreeDespite(w: World, m: Key, s: State, t: State, step: Step)
    requires w.Separated() && Inv(w, s) && StepInPlay(w, step) && step.Call? && !About(step, m) && m in w.keys
    requires Agree(w, m, s, t)
    ensures Agree(w, m, After(w, s, step), t)
  {
    CallView(w, s, step, m);
    SameOutsideChain(w, After(w, s, step), s, t, t);
  }

  lemma {:induction false} ProjectionAgrees(w: World, s: State, steps: seq<Step>, m: Key)
    requires w.Separated() && Inv(w, s) && RunInPlay(w, steps) && m in w.keys
    ensures RunInPlay(w, Project(steps, m))
    ensures Inv(w, Run(w, s, steps)) && Inv(w, Run(w, s, Project(steps, m)))
    ensures Agree(w, m, Run(w, s, steps), Run(w, s, Project(steps, m)))
    ensures Outcomes(w, s, steps, m) == Outcomes(w, s, Project(steps, m), m)
    decreases |steps|
  {
    if steps != [] {
      var front, last := steps[..|steps| - 1], steps[|steps| - 1];
      ProjectionAgrees(w, s, front, m);
      var p, q := Project(front, m), Project(steps, m);
      var t, t' := Run(w, s, front), Run(w, s, p);
      RunKeepsInv(w, s, steps, |steps|);
      assert steps[..|steps|] == steps;
      if last.Call? && !About(last, m) {
        assert q == p;
        AgreeDespite(w, m, t, t', last);
      } else {
        assert q == p + [last] && q[..|q| - 1] == p;
        RunKeepsInv(w, s, q, |q|);
        assert q[..|q|] == q;
        if last.Call? {
          AgreeOnCall(w, m, t, t', last);
        } else {
          AgreeOnOutside(w, m, t, t', last);
        }
      }
    }
  }

  /** After any interleaving over many mints, a mint's accounts are those after the sub-run
      of its own steps, and its own instructions had the same outcomes. */
  lemma RunProjection(w: World, s: State, steps: seq<Step>, m: Key)
    requires w.Separated() && Inv(w, s) && RunInPlay(w, steps) && m in w.keys
    ensures var t, t' := Run(w, s, steps), Run(w, s, Project(steps, m));
      && (forall u, b: byte :: w.InPlay(u) && Belongs(u, m) ==> SameAt(t, t', w.Addr(u, b)))
      && Outcomes(w, s, steps, m) == Outcomes(w, s, Project(steps, m), m)
  {
    ProjectionAgrees(w, s, steps, m);
    TableDeterminesAccounts(w, Run(w, s, steps), Run(w, s, Project(steps, m)), m);
  }

  // ---------------------------------------------------------------- commuting instructions

  /** States that agree for every mint are the same state. */
  lemma AgreeEverywhere(w: World, s: State, t: State)
    requires Inv(w, s) && Inv(w, t)
    requires SameOutside(w, s, t) && SameSurroundings(s, t)
    requires forall m :: m in w.keys ==> View(w, s, m) == View(w, t, m)
    ensures s == t
  {
    forall a ensures SameAt(s, t, a) {
      AgreeAt(w, s, t, a);
    }
    SameAccounts(s, t);
  }

  lemma AgreeAt(w: World, s: State, t: State, a: Key)
    requires Inv(w, s) && Inv(w, t) && SameOutside(w, s, t)
    requires forall m :: m in w.keys ==> View(w, s, m) == View(w, t, m)
    ensures SameAt(s, t, a)
  {
    if w.HookAddress(a) {
      var u, b: byte :| w.InPlay(u) && w.Addr(u, b) == a;
      if u.AttestationSeed? {
        assert ProperAt(w, s, u, b);
        assert ProperAt(w, t, u, b);
      } else {
        HalfDetermined(w, s, t, u, b);
        HalfDetermined(w, t, s, u, b);
      }
    }
  }

  lemma SameAccounts(s: State, t: State)
    requires forall a :: SameAt(s, t, a)
    ensures s.accounts == t.accounts
  {
    forall a ensures a in s.accounts <==> a in t.accounts { assert SameAt(s, t, a); }
    forall a | a in s.accounts ensures s.accounts[a] == t.accounts[a] { assert SameAt(s, t, a); }
  }

  /** A mint's own instruction has the same effect on it before and after one of another's. */
  lemma OtherMintFirst(w: World, s: State, own: Step, other: Step)
    requires w.Separated() && Inv(w, s) && StepInPlay(w, own) && StepInPlay(w, other)
    requires own.Call? && other.Call? && own.instruction.mint != other.instruction.mint
    ensures var m := own.instruction.mint;
      View(w, After(w, After(w, s, other), own), m) == View(w, After(w, After(w, s, own), other), m)
  {
    var m := own.instruction.mint;
    var s1, s2 := After(w, s, own), After(w, s, other);
    CallView(w, s, own, m);
    CallView(w, s, other, m);
    CallView(w, s1, other, m);
    AgreeDespite(w, m, s, s, other);
    AgreeOnCall(w, m, s2, s, own);
  }

  /** Instructions about different mints commute. */
  lemma DifferentMintsCommute(w: World, s: State, a: Step, b: Step)
    requires w.Separated() && Inv(w, s) && StepInPlay(w, a) && StepInPlay(w, b)
    requires a.Call? && b.Call? && a.instruction.mint != b.instruction.mint
    ensures After(w, After(w, s, a), b) == After(w, After(w, s, b), a)
  {
    var sa, sb := After(w, s, a), After(w, s, b);
    var m := a.instruction.mint;
    CallView(w, s, a, m);
    CallView(w, s, b, m);
    CallView(w, sa, b, m);
    CallView(w, sb, a, m);
    var ab, ba := After(w, sa, b), After(w, sb, a);
    forall n | n in w.keys ensures View(w, ab, n) == View(w, ba, n) {
      if About(a, n) {
        OtherMintFirst(w, s, a, b);
      } else if About(b, n) {
        OtherMintFirst(w, s, b, a);
      } else {
        CallView(w, s, a, n);
        CallView(w, s, b, n);
        CallView(w, sa, b, n);
        CallView(w, sb, a, n);
      }
    }
    AgreeEverywhere(w, ab, ba);
  }
}
