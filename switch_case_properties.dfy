/** What one lowered arm's edit log promises: the `when` removal first,
    the comma removals in token order, one `case ... :` label per condition,
    the `then` removal exactly when a `then` is present, the consequent
    patched once after every condition, and the break policy. */
module SwitchCaseProperties {
  import opened Editing
  import opened Tokens
  import opened SwitchCase

  // ---- Classes of events, for counting ----

  predicate IsRemoval(e: Edit) { e.Remove? }
  predicate IsCaseOpen(e: Edit) { e.Insert? && e.text == "case " }
  predicate IsCaseClose(e: Edit) { e.Insert? && e.text == ":" }
  predicate IsBreakEdit(e: Edit) { (e.Insert? && e.text == " break") || (e.AppendLine? && e.text == "break") }
  function PatchOf(id: nat): Edit -> bool { (e: Edit) => e.PatchChild? && e.id == id }

  /** The three edits that label condition `c` sit at `at`: `case `
      before it, its patch without braces, `:` after it. */
  predicate LabelledAt(log: seq<Edit>, at: nat, c: NodePatcher)
  {
    && at + 3 <= |log|
    && log[at] == Insert(c.before, "case ")
    && log[at + 1] == PatchChild(c.id, NoBraces)
    && log[at + 2] == Insert(c.after, ":")
  }

  // ---- Counting over each step ----

  lemma {:induction false} CountAll(log: seq<Edit>, p: Edit -> bool)
    requires forall i :: 0 <= i < |log| ==> p(log[i])
    ensures Count(log, p) == |log|
  {
    if log != [] {
      CountAll(log[1..], p);
    }
  }

  /** One label: one `case `, one `:`, no removal, no break, and one patch
      of the labelled condition. */
  lemma LabelCounts(c: NodePatcher, id: nat)
    ensures Count(Label(c), IsCaseOpen) == 1 && Count(Label(c), IsCaseClose) == 1
    ensures Count(Label(c), IsRemoval) == 0 && Count(Label(c), IsBreakEdit) == 0
    ensures Count(Label(c), PatchOf(id)) == if c.id == id then 1 else 0
  {
    var a, b, d := Insert(c.before, "case "), PatchChild(c.id, NoBraces), Insert(c.after, ":");
    assert Label(c) == [a] + [b] + [d];
    forall p: Edit -> bool ensures Count(Label(c), p) == Count([a], p) + Count([b], p) + Count([d], p) {
      CountConcat([a] + [b], [d], p);
      CountConcat([a], [b], p);
    }
    forall p: Edit -> bool ensures Count([a], p) == (if p(a) then 1 else 0) && Count([b], p) == (if p(b) then 1 else 0)
                                   && Count([d], p) == (if p(d) then 1 else 0) {
      CountOne(a, p);
      CountOne(b, p);
      CountOne(d, p);
    }
  }

  /** `N` conditions give exactly `N` `case ` openers and `N` `:` closers,
      no removal and no break. */
  lemma {:induction false} CaseLabelsCounts(conditions: seq<NodePatcher>)
    ensures Count(CaseLabels(conditions), IsCaseOpen) == |conditions|
    ensures Count(CaseLabels(conditions), IsCaseClose) == |conditions|
    ensures Count(CaseLabels(conditions), IsRemoval) == 0
    ensures Count(CaseLabels(conditions), IsBreakEdit) == 0
  {
    if conditions != [] {
      var n := |conditions| - 1;
      CaseLabelsCounts(conditions[..n]);
      LabelCounts(conditions[n], 0);
      CountConcat(CaseLabels(conditions[..n]), Label(conditions[n]), IsCaseOpen);
      CountConcat(CaseLabels(conditions[..n]), Label(conditions[n]), IsCaseClose);
      CountConcat(CaseLabels(conditions[..n]), Label(conditions[n]), IsRemoval);
      CountConcat(CaseLabels(conditions[..n]), Label(conditions[n]), IsBreakEdit);
    }
  }

  /** With distinct ids, the labels patch each condition once and no other
      child. */
  lemma {:induction false} CaseLabelsPatchCount(conditions: seq<NodePatcher>, id: nat)
    requires forall i, j :: 0 <= i < j < |conditions| ==> conditions[i].id != conditions[j].id
    ensures Count(CaseLabels(conditions), PatchOf(id)) ==
            if exists i :: 0 <= i < |conditions| && conditions[i].id == id then 1 else 0
  {
    if conditions != [] {
      var n := |conditions| - 1;
      var front := conditions[..n];
      CaseLabelsPatchCount(front, id);
      LabelCounts(conditions[n], id);
      CountConcat(CaseLabels(front), Label(conditions[n]), PatchOf(id));
      if exists i :: 0 <= i < |conditions| && conditions[i].id == id {
        var i :| 0 <= i < |conditions| && conditions[i].id == id;
        if i < n {
          assert front[i].id == id;
        }
      } else {
        assert forall i :: 0 <= i < |front| ==> front[i] == conditions[i];
      }
    }
  }

  lemma CommaRemovalsCounts(commas: seq<Token>)
    ensures Count(CommaRemovals(commas), IsRemoval) == |commas|
  {
    CountAll(CommaRemovals(commas), IsRemoval);
  }

  /** Comma removals hold no label, break or patch. */
  lemma CommaRemovalsOnlyRemove(commas: seq<Token>)
    ensures Count(CommaRemovals(commas), IsCaseOpen) == 0 && Count(CommaRemovals(commas), IsCaseClose) == 0
    ensures Count(CommaRemovals(commas), IsBreakEdit) == 0
    ensures forall id :: Count(CommaRemovals(commas), PatchOf(id)) == 0
  {
    var r := CommaRemovals(commas);
    assert forall i :: 0 <= i < |r| ==> r[i].Remove?;
  }

  lemma ThenRemovalCounts(thenToken: Option<Token>, consequent: NodePatcher)
    ensures Count(ThenRemoval(thenToken, consequent), IsRemoval) == if thenToken.Some? then 1 else 0
    ensures Count(ThenRemoval(thenToken, consequent), IsCaseOpen) == 0
    ensures Count(ThenRemoval(thenToken, consequent), IsCaseClose) == 0
    ensures Count(ThenRemoval(thenToken, consequent), IsBreakEdit) == 0
    ensures forall id :: Count(ThenRemoval(thenToken, consequent), PatchOf(id)) == 0
  {
    if thenToken.Some? {
      var e := Remove(thenToken.value.start, consequent.start);
      forall p: Edit -> bool ensures Count([e], p) == if p(e) then 1 else 0 {
        CountOne(e, p);
      }
    }
  }

  lemma BreakEditsCounts(needsBreak: bool, thenToken: Option<Token>, consequent: NodePatcher)
    ensures Count(BreakEdits(needsBreak, thenToken, consequent), IsBreakEdit) == if needsBreak then 1 else 0
    ensures Count(BreakEdits(needsBreak, thenToken, consequent), IsRemoval) == 0
    ensures Count(BreakEdits(needsBreak, thenToken, consequent), IsCaseOpen) == 0
    ensures Count(BreakEdits(needsBreak, thenToken, consequent), IsCaseClose) == 0
    ensures forall id :: Count(BreakEdits(needsBreak, thenToken, consequent), PatchOf(id)) == 0
  {
    if needsBreak {
      var e := BreakEdits(needsBreak, thenToken, consequent)[0];
      forall p: Edit -> bool ensures Count([e], p) == if p(e) then 1 else 0 {
        CountOne(e, p);
      }
    }
  }

  /** Slicing a log made of six consecutive segments gives back each one. */
  lemma SixSegments(a: seq<Edit>, b: seq<Edit>, c: seq<Edit>, d: seq<Edit>, e: seq<Edit>, f: seq<Edit>)
    ensures |a + b + c + d + e + f| == |a| + |b| + |c| + |d| + |e| + |f|
    ensures (a + b + c + d + e + f)[..|a|] == a
    ensures (a + b + c + d + e + f)[|a| .. |a| + |b|] == b
    ensures (a + b + c + d + e + f)[|a| + |b| .. |a| + |b| + |c|] == c
    ensures (a + b + c + d + e + f)[|a| + |b| + |c| .. |a| + |b| + |c| + |d|] == d
    ensures (a + b + c + d + e + f)[|a| + |b| + |c| + |d| .. |a| + |b| + |c| + |d| + |e|] == e
    ensures (a + b + c + d + e + f)[|a| + |b| + |c| + |d| + |e| ..] == f
  {
    var s4 := a + b + c + d + e;
    assert (s4 + f)[..|s4|] == s4;
    var s3 := a + b + c + d;
    assert s4[..|s3|] == s3;
    var s2 := a + b + c;
    assert s3[..|s2|] == s2;
    var s1 := a + b;
    assert s2[..|s1|] == s1;
  }

  /** Where each step's edits sit in an arm's log. */
  lemma LoweringSegments(whenStart: nat, commas: seq<Token>, conditions: seq<NodePatcher>,
                         thenToken: Option<Token>, consequent: NodePatcher, needsBreak: bool)
    requires |conditions| > 0
    ensures |Lowering(whenStart, commas, conditions, thenToken, consequent, needsBreak)| ==
            |commas| + 3 * |conditions| + |ThenRemoval(thenToken, consequent)| + 2 + |BreakEdits(needsBreak, thenToken, consequent)|
    ensures Lowering(whenStart, commas, conditions, thenToken, consequent, needsBreak)[1 .. 1 + |commas|] == CommaRemovals(commas)
    ensures Lowering(whenStart, commas, conditions, thenToken, consequent, needsBreak)[1 + |commas| .. 1 + |commas| + 3 * |conditions|]
            == CaseLabels(conditions)
    ensures Lowering(whenStart, commas, conditions, thenToken, consequent, needsBreak)
              [1 + |commas| + 3 * |conditions| .. 1 + |commas| + 3 * |conditions| + |ThenRemoval(thenToken, consequent)|]
            == ThenRemoval(thenToken, consequent)
    ensures Lowering(whenStart, commas, conditions, thenToken, consequent, needsBreak)
              [1 + |commas| + 3 * |conditions| + |ThenRemoval(thenToken, consequent)|]
            == PatchChild(consequent.id, NoBraces)
    ensures Lowering(whenStart, commas, conditions, thenToken, consequent, needsBreak)
              [2 + |commas| + 3 * |conditions| + |ThenRemoval(thenToken, consequent)| ..]
            == BreakEdits(needsBreak, thenToken, consequent)
  {
    var s5 := [PatchChild(consequent.id, NoBraces)];
    SixSegments([Remove(whenStart, conditions[0].start)], CommaRemovals(commas), CaseLabels(conditions),
                ThenRemoval(thenToken, consequent), s5, BreakEdits(needsBreak, thenToken, consequent));
    var log := Lowering(whenStart, commas, conditions, thenToken, consequent, needsBreak);
    var at := 1 + |commas| + 3 * |conditions| + |ThenRemoval(thenToken, consequent)|;
    assert log[at] == log[at .. at + 1][0];
  }

  /** An arm's count of any kind of event is the sum over its six steps. */
  lemma LoweringCount(whenStart: nat, commas: seq<Token>, conditions: seq<NodePatcher>,
                      thenToken: Option<Token>, consequent: NodePatcher, needsBreak: bool, p: Edit -> bool)
    requires |conditions| > 0
    ensures Count(Lowering(whenStart, commas, conditions, thenToken, consequent, needsBreak), p) ==
            Count([Remove(whenStart, conditions[0].start)], p) + Count(CommaRemovals(commas), p)
            + Count(CaseLabels(conditions), p) + Count(ThenRemoval(thenToken, consequent), p)
            + Count([PatchChild(consequent.id, NoBraces)], p) + Count(BreakEdits(needsBreak, thenToken, consequent), p)
  {
    var s0 := [Remove(whenStart, conditions[0].start)];
    var s1 := s0 + CommaRemovals(commas);
    var s2 := s1 + CaseLabels(conditions);
    var s3 := s2 + ThenRemoval(thenToken, consequent);
    var s4 := s3 + [PatchChild(consequent.id, NoBraces)];
    CountConcat(s0, CommaRemovals(commas), p);
    CountConcat(s1, CaseLabels(conditions), p);
    CountConcat(s2, ThenRemoval(thenToken, consequent), p);
    CountConcat(s3, [PatchChild(consequent.id, NoBraces)], p);
    CountConcat(s4, BreakEdits(needsBreak, thenToken, consequent), p);
  }

  // ---- What an arm's steps promise, given its query results ----

  lemma LoweringCommas(whenStart: nat, commas: seq<Token>, conditions: seq<NodePatcher>,
                       thenToken: Option<Token>, consequent: NodePatcher, needsBreak: bool)
    requires |conditions| > 0
    ensures forall k :: 0 <= k < |commas| ==>
              Lowering(whenStart, commas, conditions, thenToken, consequent, needsBreak)[1 + k]
              == Remove(commas[k].start, commas[k].end)
  {
    LoweringSegments(whenStart, commas, conditions, thenToken, consequent, needsBreak);
    var log := Lowering(whenStart, commas, conditions, thenToken, consequent, needsBreak);
    forall k | 0 <= k < |commas| ensures log[1 + k] == Remove(commas[k].start, commas[k].end) {
      assert log[1 + k] == log[1 .. 1 + |commas|][k];
    }
  }

  lemma LoweringLabelSlice(whenStart: nat, commas: seq<Token>, conditions: seq<NodePatcher>,
                           thenToken: Option<Token>, consequent: NodePatcher, needsBreak: bool)
    requires |conditions| > 0
    ensures Lowering(whenStart, commas, conditions, thenToken, consequent, needsBreak)
              [1 + |commas| .. 1 + |commas| + 3 * |conditions|] == CaseLabels(conditions)
  {
    LoweringSegments(whenStart, commas, conditions, thenToken, consequent, needsBreak);
  }

  /** Where labels of `conditions` sit at offset `n` of a log, the `i`-th
      condition's three edits sit at `n + 3 * i`. */
  lemma LabelAtOffset(log: seq<Edit>, n: nat, conditions: seq<NodePatcher>, i: nat)
    requires n + 3 * |conditions| <= |log| && log[n .. n + 3 * |conditions|] == CaseLabels(conditions)
    requires i < |conditions|
    ensures LabelledAt(log, n + 3 * i, conditions[i])
  {
    CaseLabelsAt(conditions, i);
    var labels := log[n .. n + 3 * |conditions|];
    assert log[n + 3 * i] == labels[3 * i];
    assert log[n + 3 * i + 1] == labels[3 * i + 1];
    assert log[n + 3 * i + 2] == labels[3 * i + 2];
  }

  lemma LoweringLabelAt(whenStart: nat, commas: seq<Token>, conditions: seq<NodePatcher>,
                        thenToken: Option<Token>, consequent: NodePatcher, needsBreak: bool, i: nat)
    requires i < |conditions|
    ensures LabelledAt(Lowering(whenStart, commas, conditions, thenToken, consequent, needsBreak), 1 + |commas| + 3 * i, conditions[i])
  {
    LoweringLabelSlice(whenStart, commas, conditions, thenToken, consequent, needsBreak);
    LabelAtOffset(Lowering(whenStart, commas, conditions, thenToken, consequent, needsBreak), 1 + |commas|, conditions, i);
  }

  lemma LoweringLabels(whenStart: nat, commas: seq<Token>, conditions: seq<NodePatcher>,
                       thenToken: Option<Token>, consequent: NodePatcher, needsBreak: bool)
    requires |conditions| > 0
    ensures Count(Lowering(whenStart, commas, conditions, thenToken, consequent, needsBreak), IsCaseOpen) == |conditions|
    ensures Count(Lowering(whenStart, commas, conditions, thenToken, consequent, needsBreak), IsCaseClose) == |conditions|
  {
    LoweringSegments(whenStart, commas, conditions, thenToken, consequent, needsBreak);
    CaseLabelsCounts(conditions);
    CommaRemovalsCounts(commas);
    CommaRemovalsOnlyRemove(commas);
    ThenRemovalCounts(thenToken, consequent);
    BreakEditsCounts(needsBreak, thenToken, consequent);
    LoweringCount(whenStart, commas, conditions, thenToken, consequent, needsBreak, IsCaseOpen);
    LoweringCount(whenStart, commas, conditions, thenToken, consequent, needsBreak, IsCaseClose);
    CountOne(Remove(whenStart, conditions[0].start), IsCaseOpen);
    CountOne(Remove(whenStart, conditions[0].start), IsCaseClose);
    CountOne(PatchChild(consequent.id, NoBraces), IsCaseOpen);
    CountOne(PatchChild(consequent.id, NoBraces), IsCaseClose);
  }

  lemma LoweringRemovals(whenStart: nat, commas: seq<Token>, conditions: seq<NodePatcher>,
                         thenToken: Option<Token>, consequent: NodePatcher, needsBreak: bool)
    requires |conditions| > 0
    ensures Count(Lowering(whenStart, commas, conditions, thenToken, consequent, needsBreak), IsRemoval)
            == 1 + |commas| + (if thenToken.Some? then 1 else 0)
    ensures thenToken.Some? ==>
              Lowering(whenStart, commas, conditions, thenToken, consequent, needsBreak)[1 + |commas| + 3 * |conditions|]
              == Remove(thenToken.value.start, consequent.start)
  {
    LoweringSegments(whenStart, commas, conditions, thenToken, consequent, needsBreak);
    var log := Lowering(whenStart, commas, conditions, thenToken, consequent, needsBreak);
    if thenToken.Some? {
      var at := 1 + |commas| + 3 * |conditions|;
      assert log[at] == log[at .. at + 1][0];
    }
    CaseLabelsCounts(conditions);
    CommaRemovalsCounts(commas);
    CommaRemovalsOnlyRemove(commas);
    ThenRemovalCounts(thenToken, consequent);
    BreakEditsCounts(needsBreak, thenToken, consequent);
    LoweringCount(whenStart, commas, conditions, thenToken, consequent, needsBreak, IsRemoval);
    CountOne(Remove(whenStart, conditions[0].start), IsRemoval);
    CountOne(PatchChild(consequent.id, NoBraces), IsRemoval);
  }

  /** Outside the labels, the only child patched is the consequent, once. */
  lemma LoweringPatchCount(whenStart: nat, commas: seq<Token>, conditions: seq<NodePatcher>,
                           thenToken: Option<Token>, consequent: NodePatcher, needsBreak: bool, id: nat)
    requires |conditions| > 0
    ensures Count(Lowering(whenStart, commas, conditions, thenToken, consequent, needsBreak), PatchOf(id))
            == Count(CaseLabels(conditions), PatchOf(id)) + (if id == consequent.id then 1 else 0)
  {
    CommaRemovalsCounts(commas);
    CommaRemovalsOnlyRemove(commas);
    ThenRemovalCounts(thenToken, consequent);
    BreakEditsCounts(needsBreak, thenToken, consequent);
    LoweringCount(whenStart, commas, conditions, thenToken, consequent, needsBreak, PatchOf(id));
    CountOne(Remove(whenStart, conditions[0].start), PatchOf(id));
    CountOne(PatchChild(consequent.id, NoBraces), PatchOf(id));
  }

  lemma LoweringPatches(whenStart: nat, commas: seq<Token>, conditions: seq<NodePatcher>,
                        thenToken: Option<Token>, consequent: NodePatcher, needsBreak: bool)
    requires |conditions| > 0 && DistinctChildren(conditions, consequent)
    ensures Count(Lowering(whenStart, commas, conditions, thenToken, consequent, needsBreak), PatchOf(consequent.id)) == 1
    ensures forall i :: 0 <= i < |conditions| ==>
              Count(Lowering(whenStart, commas, conditions, thenToken, consequent, needsBreak), PatchOf(conditions[i].id)) == 1
  {
    LoweringPatchCount(whenStart, commas, conditions, thenToken, consequent, needsBreak, consequent.id);
    CaseLabelsPatchCount(conditions, consequent.id);
    forall i | 0 <= i < |conditions|
      ensures Count(Lowering(whenStart, commas, conditions, thenToken, consequent, needsBreak), PatchOf(conditions[i].id)) == 1
    {
      LoweringPatchCount(whenStart, commas, conditions, thenToken, consequent, needsBreak, conditions[i].id);
      CaseLabelsPatchCount(conditions, conditions[i].id);
    }
  }

  /** Only break edits follow the consequent patch. */
  lemma LoweringTail(whenStart: nat, commas: seq<Token>, conditions: seq<NodePatcher>,
                     thenToken: Option<Token>, consequent: NodePatcher, needsBreak: bool)
    requires |conditions| > 0
    ensures forall j :: 1 + |commas| + 3 * |conditions| + |ThenRemoval(thenToken, consequent)| < j
                        < |Lowering(whenStart, commas, conditions, thenToken, consequent, needsBreak)| ==>
              IsBreakEdit(Lowering(whenStart, commas, conditions, thenToken, consequent, needsBreak)[j])
  {
    LoweringSegments(whenStart, commas, conditions, thenToken, consequent, needsBreak);
    var log := Lowering(whenStart, commas, conditions, thenToken, consequent, needsBreak);
    var at := 1 + |commas| + 3 * |conditions| + |ThenRemoval(thenToken, consequent)|;
    forall j | at < j < |log| ensures IsBreakEdit(log[j]) {
      assert log[j] == log[at + 1 ..][j - at - 1];
    }
  }

  lemma LoweringBreak(whenStart: nat, commas: seq<Token>, conditions: seq<NodePatcher>,
                      thenToken: Option<Token>, consequent: NodePatcher, needsBreak: bool)
    requires |conditions| > 0
    ensures Count(Lowering(whenStart, commas, conditions, thenToken, consequent, needsBreak), IsBreakEdit)
            == if needsBreak then 1 else 0
    ensures needsBreak ==>
              Lowering(whenStart, commas, conditions, thenToken, consequent, needsBreak)
                [|Lowering(whenStart, commas, conditions, thenToken, consequent, needsBreak)| - 1]
              == if thenToken.Some? then Insert(consequent.after, " break") else AppendLine("break", 1)
  {
    CaseLabelsCounts(conditions);
    CommaRemovalsCounts(commas);
    CommaRemovalsOnlyRemove(commas);
    ThenRemovalCounts(thenToken, consequent);
    BreakEditsCounts(needsBreak, thenToken, consequent);
    LoweringCount(whenStart, commas, conditions, thenToken, consequent, needsBreak, IsBreakEdit);
    CountOne(Remove(whenStart, conditions[0].start), IsBreakEdit);
    CountOne(PatchChild(consequent.id, NoBraces), IsBreakEdit);
  }

  // ---- What one arm's log promises ----

  /** The first edit removes the `when` keyword up to the first condition. */
  lemma WhenRemovedFirst(tokens: seq<Token>, conditions: seq<NodePatcher>, consequent: NodePatcher, implicitlyReturns: bool)
    requires |conditions| > 0 && WhenToken(tokens).Some?
    ensures |ArmEdits(tokens, conditions, consequent, implicitlyReturns)| > 0
    ensures ArmEdits(tokens, conditions, consequent, implicitlyReturns)[0]
            == Remove(WhenToken(tokens).value.start, conditions[0].start)
  {
  }

  /** Right after the `when` removal, every comma token of the arm is
      removed, in token order; `CommaTokens` holds each comma token as often
      as the arm does and nothing else. */
  lemma CommasRemovedInOrder(tokens: seq<Token>, conditions: seq<NodePatcher>, consequent: NodePatcher, implicitlyReturns: bool)
    requires |conditions| > 0 && WhenToken(tokens).Some?
    ensures forall k :: 0 <= k < |CommaTokens(tokens)| ==>
              ArmEdits(tokens, conditions, consequent, implicitlyReturns)[1 + k]
              == Remove(CommaTokens(tokens)[k].start, CommaTokens(tokens)[k].end)
    ensures Ordered(tokens) ==> Ordered(CommaTokens(tokens))
  {
    LoweringCommas(WhenToken(tokens).value.start, CommaTokens(tokens), conditions,
                   ThenToken(tokens, conditions[0], consequent), consequent, NeedsBreak(tokens, implicitlyReturns));
    if Ordered(tokens) {
      FilterOrdered(tokens, IsComma);
    }
  }

  /** After the comma removals come the case labels, one per condition in
      the original order: `case ` before the condition, the condition
      patched without braces, `:` after it. */
  lemma CaseLabelsInOrder(tokens: seq<Token>, conditions: seq<NodePatcher>, consequent: NodePatcher, implicitlyReturns: bool)
    requires |conditions| > 0 && WhenToken(tokens).Some?
    ensures forall i :: 0 <= i < |conditions| ==>
              LabelledAt(ArmEdits(tokens, conditions, consequent, implicitlyReturns), 1 + |CommaTokens(tokens)| + 3 * i, conditions[i])
  {
    var whenStart := WhenToken(tokens).value.start;
    var commas := CommaTokens(tokens);
    var thenToken := ThenToken(tokens, conditions[0], consequent);
    var needsBreak := NeedsBreak(tokens, implicitlyReturns);
    var log := ArmEdits(tokens, conditions, consequent, implicitlyReturns);
    assert log == Lowering(whenStart, commas, conditions, thenToken, consequent, needsBreak);
    forall i | 0 <= i < |conditions|
      ensures LabelledAt(log, 1 + |commas| + 3 * i, conditions[i])
    {
      LoweringLabelAt(whenStart, commas, conditions, thenToken, consequent, needsBreak, i);
    }
  }

  /** An arm has exactly as many `case ` openers and `:` closers as
      conditions. */
  lemma OneCasePerCondition(tokens: seq<Token>, conditions: seq<NodePatcher>, consequent: NodePatcher, implicitlyReturns: bool)
    requires |conditions| > 0 && WhenToken(tokens).Some?
    ensures Count(ArmEdits(tokens, conditions, consequent, implicitlyReturns), IsCaseOpen) == |conditions|
    ensures Count(ArmEdits(tokens, conditions, consequent, implicitlyReturns), IsCaseClose) == |conditions|
  {
    LoweringLabels(WhenToken(tokens).value.start, CommaTokens(tokens), conditions,
                   ThenToken(tokens, conditions[0], consequent), consequent, NeedsBreak(tokens, implicitlyReturns));
  }

  /** The `then` removal happens exactly when a `then` token lies between
      the first condition and the consequent, right after the labels, from
      the token's start to the consequent's start: the arm removes the
      `when`, the commas and that `then`, and nothing else. */
  lemma ThenRemovedIffPresent(tokens: seq<Token>, conditions: seq<NodePatcher>, consequent: NodePatcher, implicitlyReturns: bool)
    requires |conditions| > 0 && WhenToken(tokens).Some?
    ensures Count(ArmEdits(tokens, conditions, consequent, implicitlyReturns), IsRemoval)
            == 1 + |CommaTokens(tokens)| + (if ThenToken(tokens, conditions[0], consequent).Some? then 1 else 0)
    ensures ThenToken(tokens, conditions[0], consequent).Some? ==>
              ArmEdits(tokens, conditions, consequent, implicitlyReturns)[1 + |CommaTokens(tokens)| + 3 * |conditions|]
              == Remove(ThenToken(tokens, conditions[0], consequent).value.start, consequent.start)
  {
    LoweringRemovals(WhenToken(tokens).value.start, CommaTokens(tokens), conditions,
                     ThenToken(tokens, conditions[0], consequent), consequent, NeedsBreak(tokens, implicitlyReturns));
  }

  /** The consequent is patched exactly once, without braces, after the
      labels and the `then` removal; only break edits follow it, so every
      condition (each patched exactly once) is patched before it. */
  lemma ConsequentPatchedOnceLast(tokens: seq<Token>, conditions: seq<NodePatcher>, consequent: NodePatcher, implicitlyReturns: bool)
    requires |conditions| > 0 && WhenToken(tokens).Some?
    requires DistinctChildren(conditions, consequent)
    ensures Count(ArmEdits(tokens, conditions, consequent, implicitlyReturns), PatchOf(consequent.id)) == 1
    ensures forall i :: 0 <= i < |conditions| ==>
              Count(ArmEdits(tokens, conditions, consequent, implicitlyReturns), PatchOf(conditions[i].id)) == 1
    ensures ArmEdits(tokens, conditions, consequent, implicitlyReturns)
              [1 + |CommaTokens(tokens)| + 3 * |conditions| + |ThenRemoval(ThenToken(tokens, conditions[0], consequent), consequent)|]
            == PatchChild(consequent.id, NoBraces)
    ensures forall j :: 1 + |CommaTokens(tokens)| + 3 * |conditions|
                        + |ThenRemoval(ThenToken(tokens, conditions[0], consequent), consequent)| < j
                        < |ArmEdits(tokens, conditions, consequent, implicitlyReturns)| ==>
              IsBreakEdit(ArmEdits(tokens, conditions, consequent, implicitlyReturns)[j])
  {
    LoweringSegments(WhenToken(tokens).value.start, CommaTokens(tokens), conditions,
                     ThenToken(tokens, conditions[0], consequent), consequent, NeedsBreak(tokens, implicitlyReturns));
    LoweringPatches(WhenToken(tokens).value.start, CommaTokens(tokens), conditions,
                    ThenToken(tokens, conditions[0], consequent), consequent, NeedsBreak(tokens, implicitlyReturns));
    LoweringTail(WhenToken(tokens).value.start, CommaTokens(tokens), conditions,
                 ThenToken(tokens, conditions[0], consequent), consequent, NeedsBreak(tokens, implicitlyReturns));
  }

  /** The break policy: exactly one break edit when the arm has no `break`
      statement token and is not implicitly returning, none otherwise; when
      present it is the last edit, inline after the consequent if there is a
      `then`, on a line of its own if there is not. */
  lemma BreakPolicy(tokens: seq<Token>, conditions: seq<NodePatcher>, consequent: NodePatcher, implicitlyReturns: bool)
    requires |conditions| > 0 && WhenToken(tokens).Some?
    ensures Count(ArmEdits(tokens, conditions, consequent, implicitlyReturns), IsBreakEdit)
            == if (forall t :: t in tokens ==> !IsBreakStatement(t)) && !implicitlyReturns then 1 else 0
    ensures NeedsBreak(tokens, implicitlyReturns) ==>
              ArmEdits(tokens, conditions, consequent, implicitlyReturns)
                [|ArmEdits(tokens, conditions, consequent, implicitlyReturns)| - 1]
              == if ThenToken(tokens, conditions[0], consequent).Some?
                 then Insert(consequent.after, " break")
                 else AppendLine("break", 1)
  {
    LoweringBreak(WhenToken(tokens).value.start, CommaTokens(tokens), conditions,
                  ThenToken(tokens, conditions[0], consequent), consequent, NeedsBreak(tokens, implicitlyReturns));
  }
}
