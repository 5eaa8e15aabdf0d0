/** scripts/skill-policy.ts: the pause after an operator block, read off the document, against
    the directive that really runs next. */
module SkillPolicy {
  import opened Prelude
  import opened SkillModel
  import SkillLint

  datatype Flavor = Readiness | Completed
  datatype Decision = Decision(needsConfirm: bool, flavor: Flavor)

  datatype Guard = Guard(name: string, value: string)

  /** guardOf: a malformed guard counts as none. */
  function GuardOf(d: Directive): Option<Guard> {
    if d.when.Some? && d.when.value.Cond? then Some(Guard(d.when.value.name, d.when.value.value)) else None
  }

  /** Skipped by the scan: the same variable, another value. */
  predicate Incompatible(own: Option<Guard>, other: Option<Guard>) {
    own.Some? && other.Some? && own.value.name == other.value.name && own.value.value != other.value.value
  }

  /** What a barrier decides, None for the end of the document. steps[k] is whether directive k,
      of whatever kind, is written with effect:step. */
  function Judge(barrier: Option<Directive>, step: bool): Decision {
    if barrier == None || barrier.value.action.Operator? || barrier.value.action.Prompt? then Decision(false, Completed)
    else Decision(true, if step then Readiness else Completed)
  }

  /** The first directive from j on that the scan of an operator guarded by own stops at. */
  function Barrier(ds: seq<Directive>, own: Option<Guard>, j: nat): (b: nat)
    requires j <= |ds|
    ensures j <= b <= |ds|
    ensures b < |ds| ==> !Incompatible(own, GuardOf(ds[b]))
    ensures forall k :: j <= k < b ==> Incompatible(own, GuardOf(ds[k]))
    decreases |ds| - j
  {
    if j == |ds| || !Incompatible(own, GuardOf(ds[j])) then j else Barrier(ds, own, j + 1)
  }

  function JudgeAt(ds: seq<Directive>, steps: seq<bool>, b: nat): Decision
    requires |steps| == |ds|
  {
    if b < |ds| then Judge(Some(ds[b]), steps[b]) else Judge(None, false)
  }

  function Decide(ds: seq<Directive>, steps: seq<bool>, i: nat): Decision
    requires i < |ds| == |steps|
  {
    JudgeAt(ds, steps, Barrier(ds, GuardOf(ds[i]), i + 1))
  }

  method GatePolicy(ds: seq<Directive>, steps: seq<bool>) returns (out: map<nat, Decision>)
    requires |steps| == |ds|
    ensures forall i: nat :: i in out <==> i < |ds| && ds[i].action.Operator?
    ensures forall i: nat :: i in out ==> out[i] == Decide(ds, steps, i)
  {
    out := map[];
    var i := 0;
    while i < |ds|
      invariant i <= |ds|
      invariant forall k: nat :: k in out <==> k < i && ds[k].action.Operator?
      invariant forall k: nat :: k in out ==> out[k] == Decide(ds, steps, k)
    {
      if ds[i].action.Operator? {
        var own := GuardOf(ds[i]);
        var barrier: Option<Directive>, step := None, false;
        var j := i + 1;
        while j < |ds|
          invariant i < j <= |ds| && barrier == None && !step
          invariant Barrier(ds, own, i + 1) == Barrier(ds, own, j)
        {
          if !Incompatible(own, GuardOf(ds[j])) {
            barrier, step := Some(ds[j]), steps[j];
            break;
          }
          j := j + 1;
        }
        out := out[i := Judge(barrier, step)];
      }
      i := i + 1;
    }
  }

  // ---- The run ----------------------------------------------------------------

  /** The directive that runs next from j on, under bindings that no skipped directive changes. */
  function RunsNext(ds: seq<Directive>, vars: Vars, j: nat): (b: nat)
    requires j <= |ds|
    ensures j <= b <= |ds|
    ensures b < |ds| ==> ds[b].when.Some? ==> WhenMet(ds[b].when.value, vars)
    ensures forall k :: j <= k < b ==> ds[k].when.Some? && !WhenMet(ds[k].when.value, vars)
    decreases |ds| - j
  {
    if j == |ds| || (ds[j].when.Some? ==> WhenMet(ds[j].when.value, vars)) then j else RunsNext(ds, vars, j + 1)
  }

  /** The engine agrees: between the operator and RunsNext every turn is a skip. */
  lemma {:induction false} EngineSkipsTo(h: Host, ds: seq<Directive>, s0: State, j: nat, k: nat)
    requires j <= |ds| && j <= k <= RunsNext(ds, After(h, ds, j, s0).vars, j) && h.mode == Install
    ensures var s, s' := After(h, ds, j, s0), After(h, ds, k, s0);
            s'.vars == s.vars && s'.trace == s.trace && s'.files == s.files
  {
    hide VisitPrompt, VisitOperator, VisitStep, WhenMet;
    if j < k { EngineSkipsTo(h, ds, s0, j, k - 1); }
  }

  predicate Admits(d: Directive, vars: Vars) {
    d.when.Some? ==> WhenMet(d.when.value, vars)
  }

  /** Where the barrier carries a guard on another variable than the operator's. */
  predicate Ambiguous(ds: seq<Directive>, i: nat)
    requires i < |ds|
  {
    var b := Barrier(ds, GuardOf(ds[i]), i + 1);
    && b < |ds| && GuardOf(ds[b]).Some?
    && !(GuardOf(ds[i]).Some? && GuardOf(ds[i]).value.name == GuardOf(ds[b]).value.name)
  }

  /** Bindings under which the operator ran and its barrier is skipped. */
  function Against(d: Directive, barrier: Guard): Vars {
    var base: Vars := if GuardOf(d).Some? then map[GuardOf(d).value.name := Bound(GuardOf(d).value.value, false)] else map[];
    base[barrier.name := Bound(barrier.value + "!", false)]
  }

  lemma NextIs(ds: seq<Directive>, vars: Vars, j: nat, b: nat)
    requires j <= b <= |ds| && (b < |ds| ==> Admits(ds[b], vars))
    requires forall k :: j <= k < b ==> !Admits(ds[k], vars)
    ensures RunsNext(ds, vars, j) == b
  {
  }

  /** The decision is the one that the directive really running next would give, whatever the
      bindings under which the operator ran, exactly when the barrier is not ambiguous. */
  lemma StaticBarrierIff(ds: seq<Directive>, i: nat)
    requires i < |ds|
    ensures !Ambiguous(ds, i) <==>
            forall vars: Vars :: Admits(ds[i], vars) ==>
              RunsNext(ds, vars, i + 1) == Barrier(ds, GuardOf(ds[i]), i + 1)
  {
    var own := GuardOf(ds[i]);
    var b := Barrier(ds, own, i + 1);
    if !Ambiguous(ds, i) {
      forall vars: Vars | Admits(ds[i], vars) ensures RunsNext(ds, vars, i + 1) == b {
        forall k | i + 1 <= k < b ensures !Admits(ds[k], vars) { assert Incompatible(own, GuardOf(ds[k])); }
        NextIs(ds, vars, i + 1, b);
      }
    } else {
      var vars := Against(ds[i], GuardOf(ds[b]).value);
      var v := GuardOf(ds[b]).value.value;
      assert |v + "!"| != |v|;
      assert Admits(ds[i], vars) && !Admits(ds[b], vars);
    }
  }

  /** Some bindings under which the operator ran lead to j: what lies between is guarded, by
      neither the operator's own guard nor j's, and j's does not contradict the operator's. */
  predicate Reaches(ds: seq<Directive>, i: nat, j: nat)
    requires i < |ds|
  {
    var own := GuardOf(ds[i]);
    && i < j <= |ds|
    && (j < |ds| ==> !Incompatible(own, GuardOf(ds[j])))
    && forall k :: i < k < j ==>
         GuardOf(ds[k]).Some? && GuardOf(ds[k]) != own && (j < |ds| ==> GuardOf(ds[k]) != GuardOf(ds[j]))
  }

  function With(vars: Vars, g: Option<Guard>): Vars {
    if g == None then vars else vars[g.value.name := Bound(g.value.value, false)]
  }

  lemma MetIff(d: Directive, vars: Vars)
    ensures Admits(d, vars) <==>
            GuardOf(d) == None || (GuardOf(d).value.name in vars && vars[GuardOf(d).value.name].value == GuardOf(d).value.value)
  {
  }

  lemma ReachesIff(ds: seq<Directive>, i: nat, j: nat)
    requires i < |ds|
    ensures Reaches(ds, i, j) <==> exists vars: Vars :: Admits(ds[i], vars) && RunsNext(ds, vars, i + 1) == j
  {
    if Reaches(ds, i, j) {
      var vars := With(With(map[], GuardOf(ds[i])), GuardOf(if j < |ds| then ds[j] else ds[i]));
      MetIff(ds[i], vars);
      if j < |ds| { MetIff(ds[j], vars); }
      forall k | i + 1 <= k < j ensures !Admits(ds[k], vars) { MetIff(ds[k], vars); }
      NextIs(ds, vars, i + 1, j);
    }
    if vars: Vars :| Admits(ds[i], vars) && RunsNext(ds, vars, i + 1) == j {
      MetIff(ds[i], vars);
      if j < |ds| {
        assert Admits(ds[j], vars);
        MetIff(ds[j], vars);
      }
      forall k | i < k < j
        ensures GuardOf(ds[k]).Some? && GuardOf(ds[k]) != GuardOf(ds[i]) && (j < |ds| ==> GuardOf(ds[k]) != GuardOf(ds[j]))
      {
        assert !Admits(ds[k], vars);
        MetIff(ds[k], vars);
      }
    }
  }

  /** The decision is not that of the directive really running next. */
  predicate DecidesWrongly(ds: seq<Directive>, steps: seq<bool>, i: nat, vars: Vars)
    requires i < |ds| == |steps|
  {
    Admits(ds[i], vars) && Decide(ds, steps, i) != JudgeAt(ds, steps, RunsNext(ds, vars, i + 1))
  }

  /** It is wrong under some bindings exactly when some reachable directive would decide
      otherwise; both can be read off the document. */
  lemma DecisionWrongIff(ds: seq<Directive>, steps: seq<bool>, i: nat)
    requires i < |ds| == |steps|
    ensures (exists vars: Vars :: DecidesWrongly(ds, steps, i, vars)) <==>
            exists j: nat :: Reaches(ds, i, j) && JudgeAt(ds, steps, j) != Decide(ds, steps, i)
  {
    hide Admits, Decide, JudgeAt, RunsNext;
    if vars: Vars :| DecidesWrongly(ds, steps, i, vars) {
      ReachesIff(ds, i, RunsNext(ds, vars, i + 1));
    }
    if j: nat :| Reaches(ds, i, j) && JudgeAt(ds, steps, j) != Decide(ds, steps, i) {
      ReachesIff(ds, i, j);
      var vars: Vars :| Admits(ds[i], vars) && RunsNext(ds, vars, i + 1) == j;
      assert DecidesWrongly(ds, steps, i, vars);
    }
  }

  // ---- Chains -----------------------------------------------------------------

  /** Operators a..b, followed by something else. */
  predicate Chain(ds: seq<Directive>, a: nat, b: nat) {
    && a < b <= |ds| && (forall i :: a <= i < b ==> ds[i].action.Operator? && GuardOf(ds[i]) == None)
    && (b < |ds| ==> !ds[b].action.Operator?)
  }

  /** A chain of unguarded operators is confirmed at most once, on its last block, exactly
      when what follows is neither a prompt nor the end; effect:step asks for readiness. */
  lemma ChainConfirmsOnce(ds: seq<Directive>, steps: seq<bool>, a: nat, b: nat, i: nat)
    requires Chain(ds, a, b) && a <= i < b && |steps| == |ds|
    ensures Decide(ds, steps, i).needsConfirm <==> i == b - 1 && b < |ds| && !ds[b].action.Prompt?
    ensures Decide(ds, steps, i).flavor == Readiness <==> i == b - 1 && b < |ds| && !ds[b].action.Prompt? && steps[b]
  {
    assert Barrier(ds, None, i + 1) == i + 1;
  }

  // ---- The warning ------------------------------------------------------------

  /** The texts of the guards right after j, well formed or not, up to the first directive without
      one; spelled[k] is what directive k writes after when:. */
  function Branches(ds: seq<Directive>, spelled: seq<string>, j: nat): set<string>
    requires |spelled| == |ds|
    decreases |ds| - j
  {
    if j >= |ds| || ds[j].when == None then {} else {spelled[j]} + Branches(ds, spelled, j + 1)
  }

  predicate Warned(ds: seq<Directive>, spelled: seq<string>, i: nat)
    requires i < |ds| == |spelled|
  {
    ds[i].action.Operator? && ds[i].when == None && |Branches(ds, spelled, i + 1)| > 1
  }

  /** A prompt for the mode, an operator, a prompt for one mode, a run. */
  function OneBranch(tell: string, cmd: string): seq<Directive> {
    [Directive(None, Prompt("mode", false, None, ""), []),
     Directive(None, Operator([Lit(tell)]), []),
     Directive(Some(Cond("mode", "remote")), Prompt("url", false, None, ""), []),
     Directive(None, Run(None, None, None, None, [[Lit(cmd)]]), [])]
  }

  const NO_STEPS: seq<bool> := [false, false, false, false]

  lemma PlainRefs(text: string)
    ensures SkillLint.Refs(Directive(None, Operator([Lit(text)]), [])) == []
    ensures SkillLint.Refs(Directive(None, Run(None, None, None, None, [[Lit(text)]]), [])) == []
  {
    assert [Lit(text)][1..] == [] && [[Lit(text)]][1..] == [];
    assert SkillLint.TemplateRefs([Lit(text)]) == [] && SkillLint.AllRefs([[Lit(text)]]) == [];
  }

  lemma ModeIsDefined(tell: string, cmd: string)
    ensures "mode" in SkillLint.Defined(OneBranch(tell, cmd), 2)
  {
    var ds := OneBranch(tell, cmd);
    assert SkillLint.Defines(ds[0]) == {"mode"};
    assert "mode" in SkillLint.Defined(ds, 1);
  }

  lemma NoFaults(h: Host, ds: seq<Directive>, n: nat, d: Directive)
    requires n < |ds| && ds[n] == d && SkillLint.Refs(d) == []
    requires SkillLint.KindFaults(h, n, d.action) == [] && SkillLint.ShapeFaults(h, n, d.action) == []
    requires d.when.Some? ==> d.when.value.Cond? && d.when.value.name in SkillLint.Defined(ds, n)
    ensures SkillLint.Faults(h, ds, n) == []
  {
    hide SkillLint.KindFaults, SkillLint.ShapeFaults, SkillLint.Refs, SkillLint.Defined;
  }

  lemma OneBranchFaults(h: Host, tell: string, cmd: string, n: nat)
    requires n < 4
    ensures SkillLint.Faults(h, OneBranch(tell, cmd), n) == []
  {
    hide SkillLint.Faults, SkillLint.Defined;
    var ds := OneBranch(tell, cmd);
    if n == 0 {
      NoFaults(h, ds, 0, Directive(None, Prompt("mode", false, None, ""), []));
    } else if n == 1 {
      PlainRefs(tell);
      hide SkillLint.Refs;
      NoFaults(h, ds, 1, Directive(None, Operator([Lit(tell)]), []));
    } else if n == 2 {
      ModeIsDefined(tell, cmd);
      NoFaults(h, ds, 2, Directive(Some(Cond("mode", "remote")), Prompt("url", false, None, ""), []));
    } else {
      PlainRefs(cmd);
      hide SkillLint.Refs;
      NoFaults(h, ds, 3, Directive(None, Run(None, None, None, None, [[Lit(cmd)]]), []));
    }
  }

  lemma OneBranchIsClean(h: Host, tell: string, cmd: string)
    ensures SkillLint.Report(h, OneBranch(tell, cmd), 4) == []
  {
    var ds := OneBranch(tell, cmd);
    assert |ds| == 4;
    hide SkillLint.Report, SkillLint.Faults, OneBranch;
    forall i | 0 <= i < 4 ensures SkillLint.Faults(h, ds, i) == [] { OneBranchFaults(h, tell, cmd, i); }
    SkillLint.ReportIff(h, ds, 4);
  }

  /** It lints clean and is not warned about, yet in the other mode the run comes next
      unconfirmed. */
  lemma WarningMissesOneBranch(h: Host, tell: string, cmd: string)
    ensures var ds := OneBranch(tell, cmd);
            && SkillLint.Report(h, ds, 4) == [] && !Warned(ds, ["", "", "mode=remote", ""], 1)
            && Ambiguous(ds, 1) && DecidesWrongly(ds, NO_STEPS, 1, map["mode" := Bound("local", false)])
            && !Decide(ds, NO_STEPS, 1).needsConfirm
  {
    OneBranchIsClean(h, tell, cmd);
    hide SkillLint.Report;
    var ds := OneBranch(tell, cmd);
    var spelled := ["", "", "mode=remote", ""];
    assert Branches(ds, spelled, 2) == {spelled[2]} + Branches(ds, spelled, 3);
    NextIs(ds, map["mode" := Bound("local", false)], 2, 3);
  }
}
