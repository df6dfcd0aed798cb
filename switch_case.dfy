/** Case-clause lowering: one `when a, b, c then d` arm of a CoffeeScript
    `switch` becomes `case a: case b: case c: d break`. The rewriter only
    appends edits to the shared log, left to right. */
module SwitchCase {
  import opened Editing
  import opened Tokens

  predicate IsLeadingWhen(t: Token) { t.kind == "LEADING_WHEN" }
  predicate IsComma(t: Token) { t.kind == "," }
  predicate IsBreakStatement(t: Token) { t.kind == "STATEMENT" && t.data == "break" }

  /** A `THEN` token lying after `lo` and before `hi`. */
  predicate IsThenWithin(t: Token, lo: nat, hi: nat) { t.kind == "THEN" && lo <= t.start && t.end <= hi }

  // ---- Token queries over the arm's tokens ----

  function WhenToken(tokens: seq<Token>): (r: Option<Token>)
    ensures r.None? <==> forall t :: t in tokens ==> !IsLeadingWhen(t)
    ensures r.Some? ==> r.value in tokens && IsLeadingWhen(r.value)
    ensures r.Some? ==> exists i :: 0 <= i < |tokens| && tokens[i] == r.value &&
                                    forall j :: 0 <= j < i ==> !IsLeadingWhen(tokens[j])
  {
    Find(tokens, IsLeadingWhen)
  }

  function CommaTokens(tokens: seq<Token>): (r: seq<Token>)
    ensures forall t :: t in r ==> IsComma(t)
    ensures forall t :: IsComma(t) ==> multiset(r)[t] == multiset(tokens)[t]
  {
    Filter(tokens, IsComma)
  }

  function BreakToken(tokens: seq<Token>): (r: Option<Token>)
    ensures r.None? <==> forall t :: t in tokens ==> !IsBreakStatement(t)
    ensures r.Some? ==> r.value in tokens && IsBreakStatement(r.value)
    ensures r.Some? ==> exists i :: 0 <= i < |tokens| && tokens[i] == r.value &&
                                    forall j :: 0 <= j < i ==> !IsBreakStatement(tokens[j])
  {
    Find(tokens, IsBreakStatement)
  }

  /** The `then` between the first condition and the consequent. */
  function ThenToken(tokens: seq<Token>, first: NodePatcher, consequent: NodePatcher): (r: Option<Token>)
    ensures r.None? <==> forall t :: t in tokens ==> !IsThenWithin(t, first.after, consequent.before)
    ensures r.Some? ==> r.value in tokens && IsThenWithin(r.value, first.after, consequent.before)
    ensures r.Some? ==> exists i :: 0 <= i < |tokens| && tokens[i] == r.value &&
                                    forall j :: 0 <= j < i ==> !IsThenWithin(tokens[j], first.after, consequent.before)
  {
    Find(tokens, t => IsThenWithin(t, first.after, consequent.before))
  }

  // ---- The edits one arm appends, step by step ----

  function CommaRemovals(commas: seq<Token>): (r: seq<Edit>)
    ensures |r| == |commas|
    ensures forall k :: 0 <= k < |commas| ==> r[k] == Remove(commas[k].start, commas[k].end)
  {
    if commas == [] then []
    else CommaRemovals(commas[..|commas| - 1]) + [Remove(commas[|commas| - 1].start, commas[|commas| - 1].end)]
  }

  /** The three edits that turn one condition into a case label. */
  function Label(c: NodePatcher): seq<Edit>
  {
    [Insert(c.before, "case "), PatchChild(c.id, NoBraces), Insert(c.after, ":")]
  }

  function CaseLabels(conditions: seq<NodePatcher>): (r: seq<Edit>)
    ensures |r| == 3 * |conditions|
  {
    if conditions == [] then []
    else CaseLabels(conditions[..|conditions| - 1]) + Label(conditions[|conditions| - 1])
  }

  /** The labels keep the conditions' order: the `i`-th condition gets
      `case ` before it, is patched without braces, then gets `:` after it. */
  lemma {:induction false} CaseLabelsAt(conditions: seq<NodePatcher>, i: nat)
    requires i < |conditions|
    ensures CaseLabels(conditions)[3 * i] == Insert(conditions[i].before, "case ")
    ensures CaseLabels(conditions)[3 * i + 1] == PatchChild(conditions[i].id, NoBraces)
    ensures CaseLabels(conditions)[3 * i + 2] == Insert(conditions[i].after, ":")
  {
    var n := |conditions| - 1;
    var front := CaseLabels(conditions[..n]);
    assert CaseLabels(conditions) == front + Label(conditions[n]);
    if i < n {
      CaseLabelsAt(conditions[..n], i);
      assert conditions[..n][i] == conditions[i];
    }
  }

  function ThenRemoval(thenToken: Option<Token>, consequent: NodePatcher): seq<Edit>
  {
    if thenToken.Some? then [Remove(thenToken.value.start, consequent.start)] else []
  }

  /** The break policy: a break is needed when the arm has no `break`
      statement token and its value is not implicitly returned. */
  predicate NeedsBreak(tokens: seq<Token>, implicitlyReturns: bool)
  {
    BreakToken(tokens).None? && !implicitlyReturns
  }

  function BreakEdits(needsBreak: bool, thenToken: Option<Token>, consequent: NodePatcher): seq<Edit>
  {
    if !needsBreak then []
    else if thenToken.Some? then [Insert(consequent.after, " break")]
    else [AppendLine("break", 1)]
  }

  /** The edits of one arm, in order, given the results of its token
      queries: the `when` removal, the comma removals, the case labels, the
      `then` removal, the consequent patch and the break. */
  function Lowering(whenStart: nat, commas: seq<Token>, conditions: seq<NodePatcher>,
                    thenToken: Option<Token>, consequent: NodePatcher, needsBreak: bool): seq<Edit>
    requires |conditions| > 0
  {
    [Remove(whenStart, conditions[0].start)]
    + CommaRemovals(commas)
    + CaseLabels(conditions)
    + ThenRemoval(thenToken, consequent)
    + [PatchChild(consequent.id, NoBraces)]
    + BreakEdits(needsBreak, thenToken, consequent)
  }

  /** Everything `patchAsStatement` appends to the log, in order. */
  function ArmEdits(tokens: seq<Token>, conditions: seq<NodePatcher>, consequent: NodePatcher,
                    implicitlyReturns: bool): seq<Edit>
    requires |conditions| > 0 && WhenToken(tokens).Some?
  {
    Lowering(WhenToken(tokens).value.start, CommaTokens(tokens), conditions,
             ThenToken(tokens, conditions[0], consequent), consequent, NeedsBreak(tokens, implicitlyReturns))
  }

  /** The children of an arm are distinct patchers with distinct ids. */
  predicate DistinctChildren(conditions: seq<NodePatcher>, consequent: NodePatcher)
  {
    && (forall i, j :: 0 <= i < j < |conditions| ==> conditions[i] != conditions[j])
    && (forall i, j :: 0 <= i < j < |conditions| ==> conditions[i].id != conditions[j].id)
    && (forall i :: 0 <= i < |conditions| ==> conditions[i] != consequent && conditions[i].id != consequent.id)
  }

  class SwitchCasePatcher {
    /** The tokens of this arm, in source order. */
    const tokens: seq<Token>
    const conditions: seq<NodePatcher>
    const consequent: NodePatcher
    const editor: Editor
    var implicitlyReturns: bool

    ghost predicate Valid()
    {
      && DistinctChildren(conditions, consequent)
      && (forall i :: 0 <= i < |conditions| ==> conditions[i].editor == editor)
      && consequent.editor == editor
    }

    constructor (tokens: seq<Token>, conditions: seq<NodePatcher>, consequent: NodePatcher, editor: Editor)
      requires DistinctChildren(conditions, consequent)
      requires forall i :: 0 <= i < |conditions| ==> conditions[i].editor == editor
      requires consequent.editor == editor
      ensures Valid()
      ensures this.tokens == tokens && this.conditions == conditions
      ensures this.consequent == consequent && this.editor == editor
      ensures !implicitlyReturns
    {
      this.tokens := tokens;
      this.conditions := conditions;
      this.consequent := consequent;
      this.editor := editor;
      implicitlyReturns := false;
    }

    method PatchAsStatement()
      requires Valid()
      requires |conditions| > 0 && WhenToken(tokens).Some?
      modifies editor
      ensures editor.log == old(editor.log) + ArmEdits(tokens, conditions, consequent, implicitlyReturns)
    {
      var whenToken := WhenToken(tokens).value;
      var thenToken := ThenToken(tokens, conditions[0], consequent);
      var needsBreak := BreakToken(tokens).None? && !implicitlyReturns;
      Lower(whenToken.start, CommaTokens(tokens), thenToken, needsBreak);
    }

    /** The edits of `patchAsStatement`, once its token queries have run. */
    method Lower(whenStart: nat, commas: seq<Token>, thenToken: Option<Token>, needsBreak: bool)
      requires Valid()
      requires |conditions| > 0
      modifies editor
      ensures editor.log == old(editor.log) + Lowering(whenStart, commas, conditions, thenToken, consequent, needsBreak)
    {
      // `when a, b, c then d` -> `a, b, c then d`
      editor.Remove(whenStart, conditions[0].start);
      ghost var arm := [Remove(whenStart, conditions[0].start)];

      // `a, b, c then d` -> `a b c then d`
      RemoveCommas(commas);
      arm := arm + CommaRemovals(commas);
      assert editor.log == old(editor.log) + arm;

      // `a b c then d` -> `case a: case b: case c: then d`
      LabelConditions();
      arm := arm + CaseLabels(conditions);
      assert editor.log == old(editor.log) + arm;

      // `case a: case b: case c: then d` -> `case a: case b: case c: d`
      RemoveThen(thenToken);
      arm := arm + ThenRemoval(thenToken, consequent);
      assert editor.log == old(editor.log) + arm;

      consequent.Patch(NoBraces);
      arm := arm + [PatchChild(consequent.id, NoBraces)];
      assert editor.log == old(editor.log) + arm;

      // `case a: case b: case c: d` -> `case a: case b: case c: d break`
      AddBreak(needsBreak, thenToken);
      arm := arm + BreakEdits(needsBreak, thenToken, consequent);
      assert editor.log == old(editor.log) + arm;
    }

    method RemoveThen(thenToken: Option<Token>)
      modifies editor
      ensures editor.log == old(editor.log) + ThenRemoval(thenToken, consequent)
    {
      if thenToken.Some? {
        editor.Remove(thenToken.value.start, consequent.start);
      }
    }

    /** Adds the break the policy asks for: inline after a `then`,
        otherwise on a line of its own. */
    method AddBreak(needsBreak: bool, thenToken: Option<Token>)
      modifies editor
      ensures editor.log == old(editor.log) + BreakEdits(needsBreak, thenToken, consequent)
    {
      if needsBreak {
        if thenToken.Some? {
          editor.Insert(consequent.after, " break");
        } else {
          editor.AppendLineAfter("break", 1);
        }
      }
    }

    /** Removes each comma token, in order. */
    method RemoveCommas(commas: seq<Token>)
      modifies editor
      ensures editor.log == old(editor.log) + CommaRemovals(commas)
    {
      var k := 0;
      while k < |commas|
        invariant 0 <= k <= |commas|
        invariant editor.log == old(editor.log) + CommaRemovals(commas[..k])
      {
        editor.Remove(commas[k].start, commas[k].end);
        assert commas[..k + 1][..k] == commas[..k];
        k := k + 1;
      }
      assert commas[..k] == commas;
    }

    /** Wraps each condition, left to right, in `case ` and `:`. */
    method LabelConditions()
      requires Valid()
      modifies editor
      ensures editor.log == old(editor.log) + CaseLabels(conditions)
    {
      var i := 0;
      while i < |conditions|
        invariant 0 <= i <= |conditions|
        invariant editor.log == old(editor.log) + CaseLabels(conditions[..i])
      {
        var condition := conditions[i];
        editor.Insert(condition.before, "case ");
        condition.Patch(NoBraces);
        editor.Insert(condition.after, ":");
        assert conditions[..i + 1][..i] == conditions[..i];
        i := i + 1;
      }
      assert conditions[..i] == conditions;
    }

    method PatchAsExpression()
      requires Valid()
      requires |conditions| > 0 && WhenToken(tokens).Some?
      modifies editor
      ensures editor.log == old(editor.log) + ArmEdits(tokens, conditions, consequent, implicitlyReturns)
    {
      PatchAsStatement();
    }

    method SetImplicitlyReturns()
      requires Valid()
      modifies this, consequent
      ensures implicitlyReturns && consequent.implicitlyReturns
      ensures consequent.negated == old(consequent.negated)
      ensures forall i :: 0 <= i < |conditions| ==> unchanged(conditions[i])
      ensures unchanged(editor)
    {
      implicitlyReturns := true;
      consequent.SetImplicitlyReturns();
    }

    /** Each condition is negated on its own; the arm as a whole is not
        wrapped in a negation. */
    method Negate()
      requires Valid()
      modifies conditions
      ensures forall i :: 0 <= i < |conditions| ==>
        conditions[i].negated == !old(conditions[i].negated) &&
        conditions[i].implicitlyReturns == old(conditions[i].implicitlyReturns)
      ensures unchanged(this) && unchanged(consequent) && unchanged(editor)
    {
      var i := 0;
      while i < |conditions|
        invariant 0 <= i <= |conditions|
        invariant forall j :: 0 <= j < i ==>
          conditions[j].negated == !old(conditions[j].negated) &&
          conditions[j].implicitlyReturns == old(conditions[j].implicitlyReturns)
        invariant forall j :: i <= j < |conditions| ==> unchanged(conditions[j])
      {
        conditions[i].Negate();
        i := i + 1;
      }
    }
  }
}
