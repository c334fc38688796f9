/**
 * The shared context-state calculator of
 * src/actionManagement/sharedASTStateCalculator.ts: a one-slot cache of the
 * "general AST state" of the open editor, filled by the start hook of a
 * calculation and emptied by its finish hook, so that every action of one
 * calculation sees the same state and the editor is parsed once.
 *
 * The editor, its buffer, the RAML parser and the completion-kind classifier
 * are code this module cannot see. A `World` says what they answer at the
 * moment of a call: the editor each provider currently returns, the AST the
 * parser builds for an editor and the element it finds at an offset, the node
 * a custom AST provider selects, and the completion kind of a text position.
 * Each of the last four may throw instead.
 */
module SharedAstState {
  import opened Wrappers

  datatype Point = Point(row: int, column: int)

  /** A text buffer: its text, its end position, and the index of the editor's cursor in it. */
  datatype Buffer = Buffer(text: string, endPosition: Point, cursorIndex: int)

  /** An editor: the extension of its path, its cursor, its buffer if it has one, and its text. */
  datatype Editor = Editor(extension: string, cursor: Point, buffer: Option<Buffer>, text: string)

  /** Parse-result nodes, by identity. */
  datatype AstNode = AstNode(id: nat)

  /** A parsed unit: its root, and `findElementAtOffset`. */
  datatype Ast = Ast(root: AstNode, elementAt: int -> Outcome<Option<AstNode>>)

  datatype EditorProvider = EditorProvider(id: nat)
  datatype AstProvider = AstProvider(id: nat)
  datatype AstModifier = AstModifier(id: nat)

  datatype World = World(
    currentEditor: EditorProvider -> Option<Editor>,
    parse: Editor -> Outcome<Option<Ast>>,
    providedNode: AstProvider -> Outcome<Option<AstNode>>,
    completionKind: (string, int) -> Outcome<nat>)

  /** IGeneralASTState */
  datatype AstState = AstState(
    editor: Option<Editor>,
    offset: int,
    node: Option<AstNode>,
    completionKind: Option<nat>,
    astModifier: Option<AstModifier>)

  /** The record calculateState returns when no editor provider is set. */
  const EmptyState := AstState(None, 0, None, None, None)

  // ---------------------------------------------------------------------------
  // The offset walk of EditorBasedASTProvider.getSelectedNode
  // ---------------------------------------------------------------------------

  /** `text[i]` is a space or a tab; outside the text it is undefined, which is neither. */
  predicate BlankAt(text: string, i: int) {
    0 <= i < |text| && (text[i] == ' ' || text[i] == '\t')
  }

  /** The largest j <= i that is -1 or not blank. */
  function LastNonBlankAtOrBefore(text: string, i: int): (j: int)
    requires i >= -1
    ensures -1 <= j <= i
    ensures j >= 0 ==> !BlankAt(text, j)
    ensures forall k :: j < k <= i ==> BlankAt(text, k)
    decreases i + 1
  {
    if i == -1 || !BlankAt(text, i) then i else LastNonBlankAtOrBefore(text, i - 1)
  }

  /**
   * The offset looked up in the AST: the cursor offset when the character
   * before it is not a space or tab; otherwise the index of the last
   * character before that run that is not a space or tab, or -1 when the
   * run reaches the start of the text. Newlines stop the walk.
   */
  function NormalizedOffset(text: string, offset: int): (r: int)
    ensures r == offset <==> !BlankAt(text, offset - 1)
    ensures r != offset ==> -1 <= r <= offset - 2 && forall k :: r < k < offset ==> BlankAt(text, k)
    ensures r != offset && r >= 0 ==> !BlankAt(text, r)
  {
    if BlankAt(text, offset - 1) then LastNonBlankAtOrBefore(text, offset - 2) else offset
  }

  /** The loop of getSelectedNode that moves `modifiedOffset` back over spaces and tabs. */
  method NormalizeOffset(text: string, offset: int) returns (modified: int)
    ensures modified == NormalizedOffset(text, offset)
  {
    modified := offset;
    var current := offset - 1;
    while current >= 0
      invariant current <= offset - 1
      invariant current >= -1 || current == offset - 1
      invariant forall k :: current < k < offset ==> BlankAt(text, k)
      invariant modified == if current == offset - 1 then offset else current
    {
      if current < |text| && (text[current] == ' ' || text[current] == '\t') {
        modified := current - 1;
        current := current - 1;
        continue;
      }
      break;
    }
    if modified != offset {
      assert BlankAt(text, offset - 1);
      LastNonBlankIs(text, offset - 2, modified);
    }
  }

  lemma {:induction false} LastNonBlankIs(text: string, i: int, j: int)
    requires -1 <= j <= i
    requires j >= 0 ==> !BlankAt(text, j)
    requires forall k :: j < k <= i ==> BlankAt(text, k)
    ensures LastNonBlankAtOrBefore(text, i) == j
    decreases i + 1
  {
    if i != j {
      assert BlankAt(text, i);
      LastNonBlankIs(text, i - 1, j);
    }
  }

  /**
   * EditorBasedASTProvider.getSelectedNode: the element at the normalised
   * offset, or the root when there is none. Without a buffer the cursor
   * index cannot be computed and a TypeError is thrown; the parser and the
   * element lookup may throw too.
   */
  function DefaultSelectedNode(p: EditorProvider, w: World): Outcome<Option<AstNode>> {
    var editor := w.currentEditor(p);
    if editor.None? then Returned(None)
    else if editor.value.buffer.None? then Threw
    else match w.parse(editor.value)
      case Threw => Threw
      case Returned(None) => Returned(None)
      case Returned(Some(ast)) =>
        var offset := NormalizedOffset(editor.value.text, editor.value.buffer.value.cursorIndex);
        match ast.elementAt(offset)
        case Threw => Threw
        case Returned(found) => Returned(Some(if found.Some? then found.value else ast.root))
  }

  /** The node calculateState works with: from the AST provider if one is set, else from the editor. */
  function SelectedNode(p: EditorProvider, ap: Option<AstProvider>, w: World): Outcome<Option<AstNode>> {
    if ap.Some? then w.providedNode(ap.value) else DefaultSelectedNode(p, w)
  }

  /** With a parsed editor, the default provider selects a node, the element found or the root, unless the lookup throws. */
  lemma DefaultSelectsElementOrRoot(p: EditorProvider, w: World)
    requires w.currentEditor(p).Some? && w.currentEditor(p).value.buffer.Some?
    requires w.parse(w.currentEditor(p).value).Returned? && w.parse(w.currentEditor(p).value).value.Some?
    ensures var e := w.currentEditor(p).value;
      var ast := w.parse(e).value.value;
      var found := ast.elementAt(NormalizedOffset(e.text, e.buffer.value.cursorIndex));
      var r := DefaultSelectedNode(p, w);
      (r.Threw? <==> found.Threw?)
      && (found.Returned? ==>
            r.value.Some?
            && (found.value.None? ==> r.value.value == ast.root)
            && (found.value.Some? ==> r.value.value == found.value.value))
  {
  }

  /**
   * The default provider throws exactly when there is an editor and it has no
   * buffer, or the parser throws, or the parse succeeds and the element
   * lookup throws.
   */
  lemma DefaultSelectedNodeThrows(p: EditorProvider, w: World)
    ensures var e := w.currentEditor(p);
      DefaultSelectedNode(p, w).Threw? <==>
        e.Some? &&
        (e.value.buffer.None?
         || w.parse(e.value).Threw?
         || (w.parse(e.value).value.Some?
             && w.parse(e.value).value.value.elementAt(NormalizedOffset(e.value.text, e.value.buffer.value.cursorIndex)).Threw?))
  {
  }

  // ---------------------------------------------------------------------------
  // calculateState
  // ---------------------------------------------------------------------------

  /** The buffer checks of calculateState: the cursor at the end of the buffer, or at row 0, column 0. */
  predicate CursorRejected(e: Editor) {
    e.buffer.Some? && (e.buffer.value.endPosition == e.cursor || (e.cursor.row == 0 && e.cursor.column == 0))
  }

  /** GeneralASTStateCalculator.calculateState: an empty record, `null`, a full record, or an exception. */
  function CalculateState(ep: Option<EditorProvider>, ap: Option<AstProvider>, am: Option<AstModifier>, w: World): Outcome<Option<AstState>> {
    if ep.None? then Returned(Some(EmptyState))
    else
      var editor := w.currentEditor(ep.value);
      if editor.None? then Returned(None)
      else if editor.value.extension != ".raml" then Returned(None)
      else
        var e := editor.value;
        var node := SelectedNode(ep.value, ap, w);
        if node.Threw? then Threw
        else if CursorRejected(e) then Returned(None)
        else if node.value.None? then Returned(None)
        else if e.buffer.None? then Threw
        else
          var offset := e.buffer.value.cursorIndex;
          match w.completionKind(e.buffer.value.text, offset)
          case Threw => Threw
          case Returned(kind) => Returned(Some(AstState(Some(e), offset, node.value, Some(kind), am)))
  }

  /** Without an editor provider the state is the non-null empty record. */
  lemma NoProviderEmptyState(ap: Option<AstProvider>, am: Option<AstModifier>, w: World)
    ensures CalculateState(None, ap, am, w) == Returned(Some(EmptyState))
    ensures EmptyState.editor.None? && EmptyState.offset == 0 && EmptyState.node.None? && EmptyState.completionKind.None?
  {
  }

  /**
   * With an editor provider the state is `null` exactly when there is no
   * current editor, its path is not a `.raml` file, or the node could be
   * selected and either the cursor is at the end of the buffer or at row 0,
   * column 0, or no node was selected.
   */
  lemma CalculateStateNull(p: EditorProvider, ap: Option<AstProvider>, am: Option<AstModifier>, w: World)
    ensures var e := w.currentEditor(p);
      var node := SelectedNode(p, ap, w);
      CalculateState(Some(p), ap, am, w) == Returned(None)
      <==> e.None? || e.value.extension != ".raml"
           || (node.Returned? && (CursorRejected(e.value) || node.value.None?))
  {
  }

  /**
   * Otherwise the state is the full record: the editor, the cursor's index in
   * the buffer, the selected node, the completion kind at that index, and the
   * stored AST modifier.
   */
  lemma CalculateStateFull(p: EditorProvider, ap: Option<AstProvider>, am: Option<AstModifier>, w: World)
    ensures var r := CalculateState(Some(p), ap, am, w);
      r.Returned? && r.value.Some? ==>
        var e := w.currentEditor(p).value;
        var s := r.value.value;
        e.extension == ".raml" && !CursorRejected(e) && e.buffer.Some?
        && s.editor == Some(e) && s.offset == e.buffer.value.cursorIndex
        && s.node.Some? && SelectedNode(p, ap, w) == Returned(s.node)
        && w.completionKind(e.buffer.value.text, s.offset).Returned?
        && s.completionKind == Some(w.completionKind(e.buffer.value.text, s.offset).value)
        && s.astModifier == am
  {
  }

  /**
   * calculateState throws exactly when, for a `.raml` editor, selecting the
   * node throws, or a node was selected, the cursor was not rejected, and
   * then either the editor has no buffer to compute the offset in or the
   * completion classifier throws.
   */
  lemma CalculateStateThrows(ep: Option<EditorProvider>, ap: Option<AstProvider>, am: Option<AstModifier>, w: World)
    ensures CalculateState(ep, ap, am, w).Threw? <==>
      ep.Some? && w.currentEditor(ep.value).Some? &&
      var e := w.currentEditor(ep.value).value;
      var node := SelectedNode(ep.value, ap, w);
      e.extension == ".raml"
      && (node.Threw?
          || (!CursorRejected(e) && node.value.Some?
              && (e.buffer.None? || w.completionKind(e.buffer.value.text, e.buffer.value.cursorIndex).Threw?)))
  {
  }

  // ---------------------------------------------------------------------------
  // The calculators
  // ---------------------------------------------------------------------------

  /** GeneralASTStateCalculator: the cached state and the stored providers. */
  class GeneralAstStateCalculator {
    var state: Option<AstState>
    var editorProvider: Option<EditorProvider>
    var astProvider: Option<AstProvider>
    var astModifier: Option<AstModifier>
    /** How many times calculateState has run. */
    ghost var computations: nat

    constructor()
      ensures state.None? && editorProvider.None? && astProvider.None? && astModifier.None?
      ensures computations == 0
    {
      state := None;
      editorProvider := None;
      astProvider := None;
      astModifier := None;
      computations := 0;
    }

    /** Runs calculateState and caches a non-null result; an exception leaves the cache as it was. */
    method Refresh(w: World) returns (r: Outcome<Option<AstState>>)
      requires state.None?
      modifies this
      ensures r == CalculateState(editorProvider, astProvider, astModifier, w)
      ensures state == (if r.Returned? then r.value else None)
      ensures computations == old(computations) + 1
      ensures editorProvider == old(editorProvider) && astProvider == old(astProvider) && astModifier == old(astModifier)
    {
      r := CalculateState(editorProvider, astProvider, astModifier, w);
      computations := computations + 1;
      if r.Returned? {
        state := r.value;
      }
    }

    /** calculate: the cached state if there is one, else a new one, cached when it is not null. */
    method Calculate(w: World) returns (r: Outcome<Option<AstState>>)
      modifies this
      ensures old(state).Some? ==> r == Returned(old(state)) && state == old(state) && computations == old(computations)
      ensures old(state).None? ==>
        r == CalculateState(editorProvider, astProvider, astModifier, w)
        && state == (if r.Returned? then r.value else None)
        && computations == old(computations) + 1
      ensures editorProvider == old(editorProvider) && astProvider == old(astProvider) && astModifier == old(astModifier)
    {
      if state.None? {
        r := Refresh(w);
      } else {
        r := Returned(state);
      }
    }

    /** contextCalculationStarted: computes the state only when none is cached. */
    method ContextCalculationStarted(w: World) returns (threw: bool)
      modifies this
      ensures old(state).Some? ==> !threw && state == old(state) && computations == old(computations)
      ensures old(state).None? ==>
        var r := CalculateState(editorProvider, astProvider, astModifier, w);
        threw == r.Threw? && state == (if r.Returned? then r.value else None)
        && computations == old(computations) + 1
      ensures editorProvider == old(editorProvider) && astProvider == old(astProvider) && astModifier == old(astModifier)
    {
      threw := false;
      if state.None? {
        var r := Refresh(w);
        threw := r.Threw?;
      }
    }

    /** contextCalculationFinished: drops the cached state. */
    method ContextCalculationFinished()
      modifies this
      ensures state.None? && computations == old(computations)
      ensures editorProvider == old(editorProvider) && astProvider == old(astProvider) && astModifier == old(astModifier)
    {
      state := None;
    }

    method SetEditorProvider(p: EditorProvider)
      modifies this
      ensures editorProvider == Some(p)
      ensures state == old(state) && astProvider == old(astProvider) && astModifier == old(astModifier)
      ensures computations == old(computations)
    {
      editorProvider := Some(p);
    }

    method SetAstProvider(p: AstProvider)
      modifies this
      ensures astProvider == Some(p)
      ensures state == old(state) && editorProvider == old(editorProvider) && astModifier == old(astModifier)
      ensures computations == old(computations)
    {
      astProvider := Some(p);
    }

    method SetAstModifier(m: AstModifier)
      modifies this
      ensures astModifier == Some(m)
      ensures state == old(state) && editorProvider == old(editorProvider) && astProvider == old(astProvider)
      ensures computations == old(computations)
    {
      astModifier := Some(m);
    }

    /** getEditor: the provider's current editor, or `null` without a provider. */
    method GetEditor(w: World) returns (e: Option<Editor>)
      ensures editorProvider.None? ==> e.None?
      ensures editorProvider.Some? ==> e == w.currentEditor(editorProvider.value)
    {
      if editorProvider.None? {
        return None;
      }
      return w.currentEditor(editorProvider.value);
    }
  }

  /** CommonASTStateCalculator: every instance forwards to the one global GeneralASTStateCalculator. */
  class CommonAstStateCalculator {
    const general: GeneralAstStateCalculator

    constructor(general: GeneralAstStateCalculator)
      ensures this.general == general
    {
      this.general := general;
    }

    /** calculate of the base class: `null`; subclasses override it. */
    method Calculate() returns (r: Option<AstState>)
      ensures r.None?
    {
      r := None;
    }

    method GetGeneralState(w: World) returns (r: Outcome<Option<AstState>>)
      modifies general
      ensures old(general.state).Some? ==> r == Returned(old(general.state)) && general.state == old(general.state)
      ensures old(general.state).Some? ==> general.computations == old(general.computations)
      ensures old(general.state).None? ==>
        r == CalculateState(general.editorProvider, general.astProvider, general.astModifier, w)
        && general.state == (if r.Returned? then r.value else None)
        && general.computations == old(general.computations) + 1
      ensures general.editorProvider == old(general.editorProvider) && general.astProvider == old(general.astProvider)
      ensures general.astModifier == old(general.astModifier)
    {
      r := general.Calculate(w);
    }

    method ContextCalculationStarted(w: World) returns (threw: bool)
      modifies general
      ensures old(general.state).Some? ==> !threw && general.state == old(general.state)
      ensures old(general.state).Some? ==> general.computations == old(general.computations)
      ensures old(general.state).None? ==>
        var r := CalculateState(general.editorProvider, general.astProvider, general.astModifier, w);
        threw == r.Threw? && general.state == (if r.Returned? then r.value else None)
        && general.computations == old(general.computations) + 1
      ensures general.editorProvider == old(general.editorProvider) && general.astProvider == old(general.astProvider)
      ensures general.astModifier == old(general.astModifier)
    {
      threw := general.ContextCalculationStarted(w);
    }

    method ContextCalculationFinished()
      modifies general
      ensures general.state.None? && general.computations == old(general.computations)
      ensures general.editorProvider == old(general.editorProvider) && general.astProvider == old(general.astProvider)
      ensures general.astModifier == old(general.astModifier)
    {
      general.ContextCalculationFinished();
    }

    method GetEditor(w: World) returns (e: Option<Editor>)
      ensures general.editorProvider.None? ==> e.None?
      ensures general.editorProvider.Some? ==> e == w.currentEditor(general.editorProvider.value)
    {
      e := general.GetEditor(w);
    }
  }

  /** NullCalculator: `calculate` returns nothing. */
  class NullCalculator {
    constructor() {}

    method Calculate() returns (r: Option<AstState>)
      ensures r.None?
    {
      r := None;
    }
  }

  /**
   * Two actions whose calculators are CommonASTStateCalculators, in one
   * calculation: both start hooks, both reads of the general state, both
   * finish hooks. Both actions read the state `calculateState` gives. When
   * it is a record, it is calculated once, when the first start hook runs;
   * when it is `null` or throws, nothing is cached and each of the four calls
   * calculates it again. The cache is empty after.
   */
  method SharedCalculation(a: CommonAstStateCalculator, b: CommonAstStateCalculator, w: World)
    returns (sa: Outcome<Option<AstState>>, sb: Outcome<Option<AstState>>)
    requires a.general == b.general && a.general.state.None?
    modifies a.general
    ensures var r := CalculateState(old(a.general.editorProvider), old(a.general.astProvider), old(a.general.astModifier), w);
      sa == r && sb == r
      && a.general.computations == old(a.general.computations) + (if r.Returned? && r.value.Some? then 1 else 4)
    ensures a.general.state.None?
  {
    var t1 := a.ContextCalculationStarted(w);
    var t2 := b.ContextCalculationStarted(w);
    sa := a.GetGeneralState(w);
    sb := b.GetGeneralState(w);
    a.ContextCalculationFinished();
    b.ContextCalculationFinished();
  }
}
