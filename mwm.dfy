/**
 * Decoding of the `_MOTIF_WM_HINTS` property (layout after Motif's
 * MwmUtil.h) into the client's option flags and border, as mwm.c does in its
 * default build: ENABLE_NO_RESIZE, ENABLE_NO_MAX and JBWM_NO_QT_FIX are off,
 * JBWM_ENABLE_TITLE_BAR_HINT is on.
 */
module Mwm {
  import opened Protocol
  import opened ClientRecord

  /** The five longs of the property: flags, functions, decor, input mode, status. */
  datatype MwmHints = MwmHints(flags: nat, functions: nat, decor: nat, inputMode: nat, status: nat)

  // flags
  const HintsFunctions: nat := 1
  const HintsDecorations: nat := 2
  const HintsInputMode: nat := 4
  const HintsStatus: nat := 8
  // functions
  const FuncAll: nat := 1
  const FuncResize: nat := 2
  const FuncMove: nat := 4
  const FuncMinimize: nat := 8
  const FuncMaximize: nat := 16
  const FuncClose: nat := 32
  // decor
  const DecorAll: nat := 1
  const DecorBorder: nat := 2
  const DecorResizeH: nat := 4
  const DecorTitle: nat := 8
  const DecorMenu: nat := 16
  const DecorMinimize: nat := 32
  const DecorMaximize: nat := 64
  // status
  const TearoffWindow: nat := 1

  predicate IsTearoff(h: MwmHints) {
    Has(h.flags, HintsStatus) && Has(h.status, TearoffWindow)
  }

  /** The function hints are consulted: FUNCTIONS flag set and FUNC_ALL clear. */
  predicate UsesFunctions(h: MwmHints) {
    Has(h.flags, HintsFunctions) && !Has(h.functions, FuncAll)
  }

  /** The decoration hints are consulted: DECORATIONS flag set and DECOR_ALL clear. */
  predicate UsesDecorations(h: MwmHints) {
    Has(h.flags, HintsDecorations) && !Has(h.decor, DecorAll)
  }

  /** The bits a tear-off window is forced to have. */
  const TearoffForced: set<Opt> := {NoBorder, NoResize, NoMin, NoMax, NoTitleBar}

  /**
   * `process_flags`: a tear-off window loses border, resize, minimise,
   * maximise and title bar; the border is 0 exactly when `no_border` is set.
   */
  function ProcessFlags(o: Options): (r: (Options, Bit))
    ensures Tearoff in o ==> TearoffForced <= r.0
    ensures Tearoff !in o ==> r.0 == o
    ensures r.0 - TearoffForced == o - TearoffForced
    ensures r.1 == 0 <==> NoBorder in r.0
  {
    var o' := if Tearoff in o then o + TearoffForced else o;
    (o', if NoBorder in o' then 0 else 1)
  }

  /** `do_functions`: in the default build a missing MOVE bit sets `no_move`, and nothing else changes. */
  function DoFunctions(o: Options, f: nat): (r: Options)
    ensures (NoMove in r) == (NoMove in o || !Has(f, FuncMove))
    ensures r - {NoMove} == o - {NoMove}
  {
    if !Has(f, FuncMove) then o + {NoMove} else o
  }

  /** The bits `do_decorations` may change. */
  const DecorationBits: set<Opt> := {NoBorder, NoTitleBar, NoClose, NoMin}

  /**
   * `do_decorations`: border and title bar follow their bits; the MENU and
   * MINIMIZE bits clear `no_close` and `no_min`, whose absence changes nothing.
   */
  function DoDecorations(o: Options, f: nat): (r: Options)
    ensures (NoBorder in r) == !Has(f, DecorBorder)
    ensures (NoTitleBar in r) == !Has(f, DecorTitle)
    ensures (NoClose in r) == (NoClose in o && !Has(f, DecorMenu))
    ensures (NoMin in r) == (NoMin in o && !Has(f, DecorMinimize))
    ensures r - DecorationBits == o - DecorationBits
  {
    var o1 := Assign(o, NoBorder, !Has(f, DecorBorder));
    var o2 := if Has(f, DecorMenu) then o1 - {NoClose} else o1;
    var o3 := if Has(f, DecorMinimize) then o2 - {NoMin} else o2;
    Assign(o3, NoTitleBar, !Has(f, DecorTitle))
  }

  /**
   * `jbwm_handle_mwm_hints`: the new options and border of a client whose
   * `_MOTIF_WM_HINTS` property is `hints` (None when absent).
   */
  function HandleMwmHints(hints: Option<MwmHints>, o: Options, border: Bit): (r: (Options, Bit))
    ensures hints.None? ==> r == (o, border)
    ensures hints.Some? ==> (Tearoff in r.0) == IsTearoff(hints.value)
    ensures hints.Some? ==> (r.1 == 0 <==> NoBorder in r.0)
    ensures hints.Some? && IsTearoff(hints.value) ==>
      r.0 == o + {Tearoff} + TearoffForced
  {
    match hints
    case None => (o, border)
    case Some(h) =>
      var o1 := Assign(o, Tearoff, IsTearoff(h));
      var o2 := if !IsTearoff(h) && UsesFunctions(h) then DoFunctions(o1, h.functions) else o1;
      var o3 := if !IsTearoff(h) && UsesDecorations(h) then DoDecorations(o2, h.decor) else o2;
      ProcessFlags(o3)
  }

  /** Decoration hints, when consulted, decide border and title bar and can only clear `no_close`/`no_min`. */
  lemma DecorationHintsDecide(h: MwmHints, o: Options, border: Bit)
    requires !IsTearoff(h) && UsesDecorations(h)
    ensures var r := HandleMwmHints(Some(h), o, border);
      && (NoBorder in r.0) == !Has(h.decor, DecorBorder)
      && (NoTitleBar in r.0) == !Has(h.decor, DecorTitle)
      && r.1 == (if Has(h.decor, DecorBorder) then 1 else 0)
      && (NoClose in r.0) == (NoClose in o && !Has(h.decor, DecorMenu))
      && (NoMin in r.0) == (NoMin in o && !Has(h.decor, DecorMinimize))
  {
  }

  /** Function hints, when consulted, only ever set `no_move`; otherwise `no_move` is untouched. */
  lemma FunctionHintsOnlyMove(h: MwmHints, o: Options, border: Bit)
    requires !IsTearoff(h)
    ensures var r := HandleMwmHints(Some(h), o, border);
      && (NoMove in r.0) == (NoMove in o || (UsesFunctions(h) && !Has(h.functions, FuncMove)))
      && (NoResize in r.0) == (NoResize in o) && (NoMax in r.0) == (NoMax in o)
  {
  }

  /** Without a consulted hint, a present property clears `tearoff` and re-derives the border from `no_border`. */
  lemma UnconsultedHintsKeepOptions(h: MwmHints, o: Options, border: Bit)
    requires !IsTearoff(h) && !UsesFunctions(h) && !UsesDecorations(h)
    ensures HandleMwmHints(Some(h), o, border) == (o - {Tearoff}, if NoBorder in o then 0 else 1)
  {
  }
}
