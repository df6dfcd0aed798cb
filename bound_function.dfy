/** Bound-function emission: a fat-arrow function that cannot stay an
    arrow is emitted by the base function patcher and bracketed with
    inserts at its inner start and inner end, so that `=> body` becomes
    `(function () { body }.bind(this))` or one of its variants. */
module ManuallyBoundFunction {
  import opened Editing

  /** The one fact about the parent the rewriter inspects: whether it is a
      `new` operator. */
  datatype ParentKind = NewOperator | OtherParent

  /** `.bind(this)`, spelled in pieces so that its characters can be
      counted piece by piece. */
  const Bind := ".bind" + "(" + "this" + ")"

  predicate IsOpenParen(e: Edit) { e.Insert? && e.text == "(" }
  predicate IsCloseParen(e: Edit) { e.Insert? && e.text == ")" }
  predicate IsBindInsert(e: Edit) { e.Insert? && e.text == Bind }
  predicate IsBase(e: Edit) { e.BaseExpression? }

  /** Statement position, whatever the parent and options: `(`, the base
      emission with the caller's options, then `.bind(this))`. */
  function StatementEdits(innerStart: nat, innerEnd: nat, options: Options): (r: seq<Edit>)
    ensures |r| == 3
  {
    [Insert(innerStart, "("), BaseExpression(options), Insert(innerEnd, Bind + ")")]
  }

  function OpenParen(parent: ParentKind, innerStart: nat): seq<Edit>
  {
    if parent == NewOperator then [Insert(innerStart, "(")] else []
  }

  function BindSuffix(innerEnd: nat, options: Options): seq<Edit>
  {
    if options.asMethod then [] else [Insert(innerEnd, Bind)]
  }

  function CloseParen(parent: ParentKind, innerEnd: nat): seq<Edit>
  {
    if parent == NewOperator then [Insert(innerEnd, ")")] else []
  }

  /** Expression position: parentheses only under a `new` operator, and
      `.bind(this)` only when not patching as a method. */
  function ExpressionEdits(parent: ParentKind, innerStart: nat, innerEnd: nat, options: Options): (r: seq<Edit>)
    ensures |r| == 1 + (if parent == NewOperator then 2 else 0) + (if options.asMethod then 0 else 1)
  {
    OpenParen(parent, innerStart) + [BaseExpression(options)] + BindSuffix(innerEnd, options) + CloseParen(parent, innerEnd)
  }

  class ManuallyBoundFunctionPatcher {
    const innerStart: nat
    const innerEnd: nat
    const parent: ParentKind
    const editor: Editor

    constructor (innerStart: nat, innerEnd: nat, parent: ParentKind, editor: Editor)
      ensures this.innerStart == innerStart && this.innerEnd == innerEnd
      ensures this.parent == parent && this.editor == editor
    {
      this.innerStart := innerStart;
      this.innerEnd := innerEnd;
      this.parent := parent;
      this.editor := editor;
    }

    /** The base function patcher's expression emission: one opaque event. */
    method BasePatchAsExpression(options: Options)
      modifies editor
      ensures editor.log == old(editor.log) + [BaseExpression(options)]
    {
      editor.log := editor.log + [BaseExpression(options)];
    }

    method PatchAsStatement(options: Options)
      modifies editor
      ensures editor.log == old(editor.log) + StatementEdits(innerStart, innerEnd, options)
    {
      editor.Insert(innerStart, "(");
      BasePatchAsExpression(options);
      editor.Insert(innerEnd, Bind + ")");
    }

    method PatchAsExpression(options: Options)
      modifies editor
      ensures editor.log == old(editor.log) + ExpressionEdits(parent, innerStart, innerEnd, options)
    {
      var needsParens := parent == NewOperator;
      if needsParens {
        editor.Insert(innerStart, "(");
      }
      assert editor.log == old(editor.log) + OpenParen(parent, innerStart);
      BasePatchAsExpression(options);
      ghost var front := OpenParen(parent, innerStart) + [BaseExpression(options)];
      if !options.asMethod {
        editor.Insert(innerEnd, Bind);
      }
      front := front + BindSuffix(innerEnd, options);
      if needsParens {
        editor.Insert(innerEnd, ")");
      }
    }

    function ExpectedArrowType(): (r: string)
      ensures r == "=>"
    {
      "=>"
    }
  }

  // ---- Counting edits ----

  lemma CountFour(a: seq<Edit>, b: seq<Edit>, c: seq<Edit>, d: seq<Edit>, p: Edit -> bool)
    ensures Count(a + b + c + d, p) == Count(a, p) + Count(b, p) + Count(c, p) + Count(d, p)
  {
    CountConcat(a + b + c, d, p);
    CountConcat(a + b, c, p);
    CountConcat(a, b, p);
  }

  /** Each step's count of one kind of edit: `[]` has none, a single edit
      one or none. */
  lemma StepCounts(parent: ParentKind, innerStart: nat, innerEnd: nat, options: Options, p: Edit -> bool)
    ensures Count(OpenParen(parent, innerStart), p) == if parent == NewOperator && p(Insert(innerStart, "(")) then 1 else 0
    ensures Count([BaseExpression(options)], p) == if p(BaseExpression(options)) then 1 else 0
    ensures Count(BindSuffix(innerEnd, options), p) == if !options.asMethod && p(Insert(innerEnd, Bind)) then 1 else 0
    ensures Count(CloseParen(parent, innerEnd), p) == if parent == NewOperator && p(Insert(innerEnd, ")")) then 1 else 0
  {
    CountOne(Insert(innerStart, "("), p);
    CountOne(BaseExpression(options), p);
    CountOne(Insert(innerEnd, Bind), p);
    CountOne(Insert(innerEnd, ")"), p);
  }

  // ---- Counting text ----

  /** `.bind(this)` occurs once in itself and once in `.bind(this))`, and
      not in a lone parenthesis. */
  lemma BindInTexts()
    ensures Occurrences(Bind, Bind) == 1 && Occurrences(Bind, Bind + ")") == 1
    ensures Occurrences(Bind, "(") == 0 && Occurrences(Bind, ")") == 0 && Occurrences(Bind, "") == 0
  {
    var s := Bind + ")";
    assert s[..|Bind|] == Bind;
    assert s[1..][0] == 'b' != Bind[0];
    assert Occurrences(Bind, s[1..][1..]) == 0;
    assert Bind[..|Bind|] == Bind;
  }

  lemma InsertedOne(e: Edit, pat: string)
    ensures InsertedOccurrences([e], pat) == Occurrences(pat, AddedText(e))
    ensures InsertedText([e]) == AddedText(e)
  {
    assert [e][1..] == [];
  }

  /** The number of `c` characters in `s`. */
  function CharCount(s: string, c: char): nat
  {
    multiset(s)[c]
  }

  lemma CharCountConcat(s: string, t: string, c: char)
    ensures CharCount(s + t, c) == CharCount(s, c) + CharCount(t, c)
  {
    assert multiset(s + t) == multiset(s) + multiset(t);
  }

  /** `.bind(this)` holds one `(` and one `)`. */
  lemma BindParens()
    ensures CharCount(Bind, '(') == 1 && CharCount(Bind, ')') == 1
  {
    assert '(' !in multiset(".bind") && ')' !in multiset(".bind");
    assert '(' !in multiset("this") && ')' !in multiset("this");
  }

  // ---- What statement position promises ----

  /** The base emission runs exactly once, with the caller's options, after
      the `(` insert at `innerStart` and before the insert at `innerEnd`. */
  lemma StatementBracketsBase(innerStart: nat, innerEnd: nat, options: Options)
    ensures var r := StatementEdits(innerStart, innerEnd, options);
            && r[1] == BaseExpression(options) && Count(r, IsBase) == 1
            && r[0] == Insert(innerStart, "(") && r[2] == Insert(innerEnd, ".bind(this))")
  {
    var r := StatementEdits(innerStart, innerEnd, options);
    assert r == [r[0]] + [r[1]] + [r[2]] + [];
    CountFour([r[0]], [r[1]], [r[2]], [], IsBase);
    CountOne(r[0], IsBase);
    CountOne(r[1], IsBase);
    CountOne(r[2], IsBase);
  }

  /** Statement position inserts two `(` and two `)` in all, and one
      `.bind(this)`. */
  lemma StatementTextCounts(innerStart: nat, innerEnd: nat, options: Options)
    ensures CharCount(InsertedText(StatementEdits(innerStart, innerEnd, options)), '(') == 2
    ensures CharCount(InsertedText(StatementEdits(innerStart, innerEnd, options)), ')') == 2
    ensures InsertedOccurrences(StatementEdits(innerStart, innerEnd, options), Bind) == 1
  {
    var r := StatementEdits(innerStart, innerEnd, options);
    assert r == [r[0]] + [r[1]] + [r[2]];
    InsertedTextConcat([r[0]] + [r[1]], [r[2]]);
    InsertedTextConcat([r[0]], [r[1]]);
    InsertedOccurrencesConcat([r[0]] + [r[1]], [r[2]], Bind);
    InsertedOccurrencesConcat([r[0]], [r[1]], Bind);
    InsertedOne(r[0], Bind);
    InsertedOne(r[1], Bind);
    InsertedOne(r[2], Bind);
    BindInTexts();
    BindParens();
    assert InsertedText(r) == "(" + "" + (Bind + ")");
  }

  // ---- What expression position promises ----

  /** An opening and a closing parenthesis are inserted, once each, exactly
      under a `new` operator. */
  lemma ExpressionParens(parent: ParentKind, innerStart: nat, innerEnd: nat, options: Options)
    ensures Count(ExpressionEdits(parent, innerStart, innerEnd, options), IsOpenParen) == if parent == NewOperator then 1 else 0
    ensures Count(ExpressionEdits(parent, innerStart, innerEnd, options), IsCloseParen) == if parent == NewOperator then 1 else 0
  {
    CountFour(OpenParen(parent, innerStart), [BaseExpression(options)], BindSuffix(innerEnd, options), CloseParen(parent, innerEnd), IsOpenParen);
    CountFour(OpenParen(parent, innerStart), [BaseExpression(options)], BindSuffix(innerEnd, options), CloseParen(parent, innerEnd), IsCloseParen);
    StepCounts(parent, innerStart, innerEnd, options, IsOpenParen);
    StepCounts(parent, innerStart, innerEnd, options, IsCloseParen);
  }

  /** `.bind(this)` is inserted exactly when not patching as a method, and
      before the closing parenthesis when both are inserted. */
  lemma ExpressionBind(parent: ParentKind, innerStart: nat, innerEnd: nat, options: Options)
    ensures Count(ExpressionEdits(parent, innerStart, innerEnd, options), IsBindInsert) == if options.asMethod then 0 else 1
    ensures forall i, j :: 0 <= i < |ExpressionEdits(parent, innerStart, innerEnd, options)|
                        && 0 <= j < |ExpressionEdits(parent, innerStart, innerEnd, options)|
                        && IsBindInsert(ExpressionEdits(parent, innerStart, innerEnd, options)[i])
                        && IsCloseParen(ExpressionEdits(parent, innerStart, innerEnd, options)[j])
                        ==> i < j
  {
    var r := ExpressionEdits(parent, innerStart, innerEnd, options);
    CountFour(OpenParen(parent, innerStart), [BaseExpression(options)], BindSuffix(innerEnd, options), CloseParen(parent, innerEnd), IsBindInsert);
    StepCounts(parent, innerStart, innerEnd, options, IsBindInsert);
    var front := OpenParen(parent, innerStart) + [BaseExpression(options)];
    assert r == front + BindSuffix(innerEnd, options) + CloseParen(parent, innerEnd);
    forall i | 0 <= i < |r| && IsBindInsert(r[i]) ensures i == |front| {
    }
    forall j | 0 <= j < |r| && IsCloseParen(r[j]) ensures j == |r| - 1 && parent == NewOperator {
    }
  }

  /** The base emission runs exactly once, with the caller's options; every
      edit before it is an insert at `innerStart` and every edit after it
      an insert at `innerEnd`. */
  lemma ExpressionBracketsBase(parent: ParentKind, innerStart: nat, innerEnd: nat, options: Options)
    ensures var r := ExpressionEdits(parent, innerStart, innerEnd, options);
            var k := |OpenParen(parent, innerStart)|;
            && r[k] == BaseExpression(options) && Count(r, IsBase) == 1
            && (forall i :: 0 <= i < k ==> r[i] == Insert(innerStart, "("))
            && (forall i :: k < i < |r| ==> r[i].Insert? && r[i].offset == innerEnd)
  {
    var r := ExpressionEdits(parent, innerStart, innerEnd, options);
    var a := OpenParen(parent, innerStart);
    CountFour(a, [BaseExpression(options)], BindSuffix(innerEnd, options), CloseParen(parent, innerEnd), IsBase);
    StepCounts(parent, innerStart, innerEnd, options, IsBase);
    var back := BindSuffix(innerEnd, options) + CloseParen(parent, innerEnd);
    assert r == a + [BaseExpression(options)] + back;
    forall i | |a| < i < |r| ensures r[i].Insert? && r[i].offset == innerEnd {
      assert r[i] == back[i - |a| - 1];
    }
  }

  /** The parentheses each step inserts. */
  lemma StepParens(parent: ParentKind, innerStart: nat, innerEnd: nat, options: Options, c: char)
    requires c == '(' || c == ')'
    ensures CharCount(InsertedText(OpenParen(parent, innerStart)), c) == if parent == NewOperator && c == '(' then 1 else 0
    ensures CharCount(InsertedText([BaseExpression(options)]), c) == 0
    ensures CharCount(InsertedText(BindSuffix(innerEnd, options)), c) == if options.asMethod then 0 else 1
    ensures CharCount(InsertedText(CloseParen(parent, innerEnd)), c) == if parent == NewOperator && c == ')' then 1 else 0
  {
    InsertedOne(Insert(innerStart, "("), Bind);
    InsertedOne(BaseExpression(options), Bind);
    InsertedOne(Insert(innerEnd, Bind), Bind);
    InsertedOne(Insert(innerEnd, ")"), Bind);
    BindParens();
  }

  /** In expression position the inserted parentheses balance: one of
      each from `.bind(this)` unless patching as a method, and one of each
      under a `new` operator. */
  lemma ExpressionParensBalance(parent: ParentKind, innerStart: nat, innerEnd: nat, options: Options)
    ensures CharCount(InsertedText(ExpressionEdits(parent, innerStart, innerEnd, options)), '(')
         == CharCount(InsertedText(ExpressionEdits(parent, innerStart, innerEnd, options)), ')')
         == (if parent == NewOperator then 1 else 0) + (if options.asMethod then 0 else 1)
  {
    var a := OpenParen(parent, innerStart);
    var b := [BaseExpression(options)];
    var c := BindSuffix(innerEnd, options);
    var d := CloseParen(parent, innerEnd);
    InsertedTextConcat(a + b + c, d);
    InsertedTextConcat(a + b, c);
    InsertedTextConcat(a, b);
    forall ch | ch == '(' || ch == ')'
      ensures CharCount(InsertedText(a + b + c + d), ch)
           == CharCount(InsertedText(a), ch) + CharCount(InsertedText(b), ch)
              + CharCount(InsertedText(c), ch) + CharCount(InsertedText(d), ch)
    {
      CharCountConcat(InsertedText(a) + InsertedText(b) + InsertedText(c), InsertedText(d), ch);
      CharCountConcat(InsertedText(a) + InsertedText(b), InsertedText(c), ch);
      CharCountConcat(InsertedText(a), InsertedText(b), ch);
    }
    StepParens(parent, innerStart, innerEnd, options, '(');
    StepParens(parent, innerStart, innerEnd, options, ')');
  }

  /** In expression position `.bind(this)` is inserted once unless
      patching as a method. */
  lemma ExpressionBindText(parent: ParentKind, innerStart: nat, innerEnd: nat, options: Options)
    ensures InsertedOccurrences(ExpressionEdits(parent, innerStart, innerEnd, options), Bind)
         == if options.asMethod then 0 else 1
  {
    var a := OpenParen(parent, innerStart);
    var b := [BaseExpression(options)];
    var c := BindSuffix(innerEnd, options);
    var d := CloseParen(parent, innerEnd);
    InsertedOccurrencesConcat(a + b + c, d, Bind);
    InsertedOccurrencesConcat(a + b, c, Bind);
    InsertedOccurrencesConcat(a, b, Bind);
    InsertedOne(Insert(innerStart, "("), Bind);
    InsertedOne(BaseExpression(options), Bind);
    InsertedOne(Insert(innerEnd, Bind), Bind);
    InsertedOne(Insert(innerEnd, ")"), Bind);
    BindInTexts();
  }

  /** Under a `new` operator and without the method option, expression
      position makes the same edits as statement position, except that the
      text statement position inserts at `innerEnd` is split over two
      inserts there. */
  lemma NewParentMatchesStatement(innerStart: nat, innerEnd: nat, options: Options)
    requires !options.asMethod
    ensures var e := ExpressionEdits(NewOperator, innerStart, innerEnd, options);
            var s := StatementEdits(innerStart, innerEnd, options);
            && e[..2] == s[..2]
            && e[2].Insert? && e[3].Insert? && s[2].Insert?
            && e[2].offset == e[3].offset == s[2].offset
            && e[2].text + e[3].text == s[2].text
  {
  }
}
