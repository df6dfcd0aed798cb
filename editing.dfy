/** The shared editor that every patcher writes to, and the part of the
    patcher base contract the two node rewriters rely on.

    The editor is modelled as an append-only log: every `insert`, `remove`
    and `appendLineAfter` call becomes one event, and patching a child (or
    running the base function patcher) is one opaque event that stands for
    whatever edits that patcher makes. Rendering the log into text is not
    modelled. */
module Editing {

  /** The option record passed to `patch`, `patchAsStatement` and
      `patchAsExpression`; `asMethod` is the `method` option. A missing
      option reads as `false`. */
  datatype Options = Options(leftBrace: bool, rightBrace: bool, asMethod: bool)

  /** `{ leftBrace: false, rightBrace: false }`, as used for case labels and
      case consequents. */
  const NoBraces := Options(false, false, false)

  /** One event of the edit log. */
  datatype Edit =
    | Insert(offset: nat, text: string)
    | Remove(start: nat, end: nat)
    | AppendLine(text: string, indent: int)
      /** The child patcher with this id was patched with these options. */
    | PatchChild(id: nat, options: Options)
      /** The base function patcher's `patchAsExpression` ran with these options. */
    | BaseExpression(options: Options)

  /** The shared, range-addressed edit buffer of one compilation unit. */
  class Editor {
    var log: seq<Edit>

    constructor ()
      ensures log == []
    {
      log := [];
    }

    method Insert(offset: nat, text: string)
      modifies this
      ensures log == old(log) + [Edit.Insert(offset, text)]
    {
      log := log + [Edit.Insert(offset, text)];
    }

    method Remove(start: nat, end: nat)
      modifies this
      ensures log == old(log) + [Edit.Remove(start, end)]
    {
      log := log + [Edit.Remove(start, end)];
    }

    method AppendLineAfter(text: string, indent: int)
      modifies this
      ensures log == old(log) + [AppendLine(text, indent)]
    {
      log := log + [AppendLine(text, indent)];
    }
  }

  /** A child patcher as the two rewriters see it: its offsets into the
      original text, the flags its parent may set, and a `patch` entry point
      whose own edits are not modelled. */
  class NodePatcher {
    const id: nat
    const start: nat
    /** Where text that must precede the node is inserted. */
    const before: nat
    /** Where text that must follow the node is inserted. */
    const after: nat
    const editor: Editor
    var implicitlyReturns: bool
    var negated: bool

    constructor (id: nat, start: nat, before: nat, after: nat, editor: Editor)
      ensures this.id == id && this.start == start
      ensures this.before == before && this.after == after && this.editor == editor
      ensures !implicitlyReturns && !negated
    {
      this.id := id;
      this.start := start;
      this.before := before;
      this.after := after;
      this.editor := editor;
      implicitlyReturns := false;
      negated := false;
    }

    /** Patching a child is one event in the shared log. */
    method Patch(options: Options)
      modifies editor
      ensures editor.log == old(editor.log) + [PatchChild(id, options)]
    {
      editor.log := editor.log + [PatchChild(id, options)];
    }

    /** The default negation: this node's logical reading is inverted. */
    method Negate()
      modifies this
      ensures negated == !old(negated)
      ensures implicitlyReturns == old(implicitlyReturns)
    {
      negated := !negated;
    }

    method SetImplicitlyReturns()
      modifies this
      ensures implicitlyReturns
      ensures negated == old(negated)
    {
      implicitlyReturns := true;
    }
  }

  /** The number of events in `log` that satisfy `p`. */
  function Count(log: seq<Edit>, p: Edit -> bool): (n: nat)
    ensures n <= |log|
    ensures n == 0 <==> forall i :: 0 <= i < |log| ==> !p(log[i])
  {
    if log == [] then 0
    else (if p(log[0]) then 1 else 0) + Count(log[1..], p)
  }

  lemma CountOne(e: Edit, p: Edit -> bool)
    ensures Count([e], p) == if p(e) then 1 else 0
  {
    assert [e][1..] == [];
  }

  lemma {:induction false} CountConcat(a: seq<Edit>, b: seq<Edit>, p: Edit -> bool)
    ensures Count(a + b, p) == Count(a, p) + Count(b, p)
  {
    if a == [] {
      assert a + b == b;
    } else {
      assert (a + b)[1..] == a[1..] + b;
      CountConcat(a[1..], b, p);
    }
  }

  /** The number of positions at which `pat` occurs in `s`. */
  function Occurrences(pat: string, s: string): (n: nat)
    ensures n <= |s|
    decreases |s|
  {
    if |pat| == 0 || |s| < |pat| then 0
    else (if s[..|pat|] == pat then 1 else 0) + Occurrences(pat, s[1..])
  }

  /** The text an event adds to the output by itself (child patches and the
      base function patch are opaque and contribute none here). */
  function AddedText(e: Edit): string
  {
    match e
    case Insert(_, text) => text
    case AppendLine(text, _) => text
    case _ => ""
  }

  /** The texts the events of `log` add, in log order. */
  function InsertedText(log: seq<Edit>): string
  {
    if log == [] then "" else AddedText(log[0]) + InsertedText(log[1..])
  }

  lemma {:induction false} InsertedTextConcat(a: seq<Edit>, b: seq<Edit>)
    ensures InsertedText(a + b) == InsertedText(a) + InsertedText(b)
  {
    if a == [] {
      assert a + b == b;
    } else {
      assert (a + b)[1..] == a[1..] + b;
      InsertedTextConcat(a[1..], b);
    }
  }

  /** How often `pat` occurs in the texts the events of `log` add, counted
      edit by edit. */
  function InsertedOccurrences(log: seq<Edit>, pat: string): (n: nat)
  {
    if log == [] then 0
    else Occurrences(pat, AddedText(log[0])) + InsertedOccurrences(log[1..], pat)
  }

  lemma {:induction false} InsertedOccurrencesConcat(a: seq<Edit>, b: seq<Edit>, pat: string)
    ensures InsertedOccurrences(a + b, pat) == InsertedOccurrences(a, pat) + InsertedOccurrences(b, pat)
  {
    if a == [] {
      assert a + b == b;
    } else {
      assert (a + b)[1..] == a[1..] + b;
      InsertedOccurrencesConcat(a[1..], b, pat);
    }
  }
}
