/**
 * The merge endpoint (src/app/api/leads/merge/route.ts): the leads named
 * by `mergeIds` are folded into the primary lead, which keeps its filled
 * columns, takes blank ones from the others, adopts a stage if it has
 * none, takes the highest priority and the latest dates, gains every tag
 * and keeps or takes a deal; then the others' history moves to the
 * primary and the others are deleted.
 */
module Merge {
  import opened Wrappers
  import opened Text
  import opened Domain
  import opened Database

  /** The columns `fill` completes. */
  datatype Column = Empresa | Rubro | Ciudad | Telefono | Whatsapp | Instagram | Web | Fuente | Nota

  function Get(l: LeadRow, c: Column): Option<string> {
    match c
    case Empresa => l.empresa
    case Rubro => l.rubro
    case Ciudad => l.ciudad
    case Telefono => l.telefono
    case Whatsapp => l.whatsapp
    case Instagram => l.instagram
    case Web => l.web
    case Fuente => l.fuente
    case Nota => l.nota
  }

  /** `merged[key] = value`. */
  function Set(l: LeadRow, c: Column, v: Option<string>): (r: LeadRow)
    ensures Get(r, c) == v
    ensures forall d :: d != c ==> Get(r, d) == Get(l, d)
    ensures Kept(r, l)
  {
    match c
    case Empresa => l.(empresa := v)
    case Rubro => l.(rubro := v)
    case Ciudad => l.(ciudad := v)
    case Telefono => l.(telefono := v)
    case Whatsapp => l.(whatsapp := v)
    case Instagram => l.(instagram := v)
    case Web => l.(web := v)
    case Fuente => l.(fuente := v)
    case Nota => l.(nota := v)
  }

  /** Everything but the fillable columns is the same. */
  predicate Kept(r: LeadRow, l: LeadRow) {
    r.id == l.id && r.nombre == l.nombre && r.stageId == l.stageId && r.prioridad == l.prioridad
    && r.ultimoContacto == l.ultimoContacto && r.proximoSeguimiento == l.proximoSeguimiento
    && r.creadoEn == l.creadoEn
  }

  /** `!normalize(value)`: missing, or nothing but whitespace, which is
      what `trim` leaves empty. */
  predicate Blank(v: Option<string>) {
    v.None? || forall i :: 0 <= i < |v.value| ==> IsSpace(v.value[i])
  }

  /** `Blank` is what `trim` empties. */
  lemma BlankMeansTrimEmpty(v: Option<string>)
    ensures Blank(v) <==> Trim(v.GetOr("")) == ""
  {
    TrimShape(v.GetOr(""));
  }

  /** The value a column keeps after `fill`: the new one if it was blank. */
  function Choose(current: Option<string>, v: Option<string>): Option<string> {
    if Blank(current) then v else current
  }

  /** `fill(key, value)`: a blank column takes the value, whatever it is. */
  function Fill(l: LeadRow, c: Column, v: Option<string>): LeadRow {
    Set(l, c, Choose(Get(l, c), v))
  }

  /** A truthy optional string: present and non-empty. */
  predicate Truthy(v: Option<string>) {
    v.Some? && v.value != ""
  }

  /** The later of a running latest date and another date, if any. */
  function Later(latest: Option<int>, v: Option<int>): Option<int> {
    if v.Some? && (latest.None? || v.value > latest.value) then v else latest
  }

  /** The two dates the merge keeps the latest of. */
  datatype DateColumn = UltimoContacto | ProximoSeguimiento

  function DateOf(l: LeadRow, w: DateColumn): Option<int> {
    match w
    case UltimoContacto => l.ultimoContacto
    case ProximoSeguimiento => l.proximoSeguimiento
  }

  /** What the loop carries: `merged`, `latestContacto`, `latestSeguimiento`. */
  datatype Fold = Fold(lead: LeadRow, contacto: Option<int>, seguimiento: Option<int>) {
    function Latest(w: DateColumn): Option<int> {
      match w
      case UltimoContacto => contacto
      case ProximoSeguimiento => seguimiento
    }
  }

  /** The columns in the order the loop fills them. */
  const Fillable: seq<Column> := [Empresa, Rubro, Ciudad, Telefono, Whatsapp, Instagram, Web, Fuente, Nota]

  lemma EveryColumnFillable(c: Column)
    ensures c in Fillable
  {
    match c
    case Empresa => assert Fillable[0] == c;
    case Rubro => assert Fillable[1] == c;
    case Ciudad => assert Fillable[2] == c;
    case Telefono => assert Fillable[3] == c;
    case Whatsapp => assert Fillable[4] == c;
    case Instagram => assert Fillable[5] == c;
    case Web => assert Fillable[6] == c;
    case Fuente => assert Fillable[7] == c;
    case Nota => assert Fillable[8] == c;
  }

  /** `fill(key, lead[key])` for each key of `cs` in turn. */
  function FillEach(l: LeadRow, o: LeadRow, cs: seq<Column>): LeadRow
    decreases |cs|
  {
    if cs == [] then l
    else
      var n := |cs| - 1;
      Fill(FillEach(l, o, cs[..n]), cs[n], Get(o, cs[n]))
  }

  /** Filling twice from the same value is filling once. */
  lemma ChooseTwice(x: Option<string>, v: Option<string>)
    ensures Choose(Choose(x, v), v) == Choose(x, v)
  {
  }

  /** Each listed column is filled from the other when it is blank; the
      rest of the lead is left alone. */
  lemma {:induction false} FillEachColumn(l: LeadRow, o: LeadRow, cs: seq<Column>, c: Column)
    ensures Get(FillEach(l, o, cs), c) == if c in cs then Choose(Get(l, c), Get(o, c)) else Get(l, c)
    ensures Kept(FillEach(l, o, cs), l)
    decreases |cs|
  {
    if cs != [] {
      var n := |cs| - 1;
      FillEachColumn(l, o, cs[..n], c);
      assert cs == cs[..n] + [cs[n]];
      if cs[n] == c {
        ChooseTwice(Get(l, c), Get(o, c));
      }
    }
  }

  /** One turn of `others.forEach`. */
  function Absorb(f: Fold, o: LeadRow): Fold {
    var l := FillEach(f.lead, o, Fillable);
    var l := if !Truthy(l.stageId) && Truthy(o.stageId) then l.(stageId := o.stageId) else l;
    var l := if o.prioridad.Rank() > l.prioridad.Rank() then l.(prioridad := o.prioridad) else l;
    Fold(l, Later(f.contacto, o.ultimoContacto), Later(f.seguimiento, o.proximoSeguimiento))
  }

  /** The state after the loop has absorbed `others`, starting from a copy
      of the primary and its own dates. */
  function FoldAll(primary: LeadRow, others: seq<LeadRow>): Fold
    decreases |others|
  {
    if others == [] then Fold(primary, primary.ultimoContacto, primary.proximoSeguimiento)
    else Absorb(FoldAll(primary, others[..|others| - 1]), others[|others| - 1])
  }

  /** The nine `fill` calls of the callback, one column at a time. */
  method FillColumns(merged: LeadRow, lead: LeadRow) returns (r: LeadRow)
    ensures r == FillEach(merged, lead, Fillable)
  {
    r := merged;
    var k := 0;
    while k < |Fillable|
      invariant 0 <= k <= |Fillable|
      invariant r == FillEach(merged, lead, Fillable[..k])
    {
      var key := Fillable[k];
      r := Fill(r, key, Get(lead, key));
      assert Fillable[..k + 1][..k] == Fillable[..k];
      k := k + 1;
    }
    assert Fillable[..k] == Fillable;
  }

  /** The `others.forEach` callback on one lead. */
  method AbsorbLead(merged: LeadRow, latestContacto: Option<int>, latestSeguimiento: Option<int>, lead: LeadRow)
    returns (merged': LeadRow, latestContacto': Option<int>, latestSeguimiento': Option<int>)
    ensures Fold(merged', latestContacto', latestSeguimiento') == Absorb(Fold(merged, latestContacto, latestSeguimiento), lead)
  {
    merged' := FillColumns(merged, lead);
    if !Truthy(merged'.stageId) && Truthy(lead.stageId) {
      merged' := merged'.(stageId := lead.stageId);
    }
    if lead.prioridad.Rank() > merged'.prioridad.Rank() {
      merged' := merged'.(prioridad := lead.prioridad);
    }
    latestContacto' := latestContacto;
    if lead.ultimoContacto.Some? && (latestContacto.None? || lead.ultimoContacto.value > latestContacto.value) {
      latestContacto' := lead.ultimoContacto;
    }
    latestSeguimiento' := latestSeguimiento;
    if lead.proximoSeguimiento.Some? && (latestSeguimiento.None? || lead.proximoSeguimiento.value > latestSeguimiento.value) {
      latestSeguimiento' := lead.proximoSeguimiento;
    }
  }

  /** The reconciliation loop of the endpoint. */
  method Reconcile(primary: LeadRow, others: seq<LeadRow>)
    returns (merged: LeadRow, latestContacto: Option<int>, latestSeguimiento: Option<int>)
    ensures Fold(merged, latestContacto, latestSeguimiento) == FoldAll(primary, others)
  {
    merged := primary;
    latestContacto := primary.ultimoContacto;
    latestSeguimiento := primary.proximoSeguimiento;
    var i := 0;
    while i < |others|
      invariant 0 <= i <= |others|
      invariant Fold(merged, latestContacto, latestSeguimiento) == FoldAll(primary, others[..i])
    {
      merged, latestContacto, latestSeguimiento := AbsorbLead(merged, latestContacto, latestSeguimiento, others[i]);
      assert others[..i + 1][..i] == others[..i];
      i := i + 1;
    }
    assert others[..i] == others;
  }

  // ---------------------------------------------------------------------
  // One turn
  // ---------------------------------------------------------------------

  /** A turn fills a blank column with the other's value and leaves a
      filled one alone. */
  lemma AbsorbColumn(f: Fold, o: LeadRow, c: Column)
    ensures Get(Absorb(f, o).lead, c) == if Blank(Get(f.lead, c)) then Get(o, c) else Get(f.lead, c)
  {
    FillEachColumn(f.lead, o, Fillable, c);
    EveryColumnFillable(c);
  }

  /** A turn adopts the other's stage only when the merged one is falsy. */
  lemma AbsorbStage(f: Fold, o: LeadRow)
    ensures Absorb(f, o).lead.stageId ==
      if !Truthy(f.lead.stageId) && Truthy(o.stageId) then o.stageId else f.lead.stageId
  {
    FillEachColumn(f.lead, o, Fillable, Empresa);
  }

  /** A turn takes the other's priority only when it ranks higher. */
  lemma AbsorbPriority(f: Fold, o: LeadRow)
    ensures Absorb(f, o).lead.prioridad ==
      if o.prioridad.Rank() > f.lead.prioridad.Rank() then o.prioridad else f.lead.prioridad
  {
    FillEachColumn(f.lead, o, Fillable, Empresa);
  }

  /** A turn keeps the identity of the merged lead. */
  lemma AbsorbIdentity(f: Fold, o: LeadRow)
    ensures Absorb(f, o).lead.id == f.lead.id && Absorb(f, o).lead.nombre == f.lead.nombre
    ensures Absorb(f, o).lead.creadoEn == f.lead.creadoEn
  {
    FillEachColumn(f.lead, o, Fillable, Empresa);
  }

  /** A turn moves a running latest date to the other's date when that is
      later. */
  lemma AbsorbDate(f: Fold, o: LeadRow, w: DateColumn)
    ensures Absorb(f, o).Latest(w) == Later(f.Latest(w), DateOf(o, w))
  {
  }

  // ---------------------------------------------------------------------
  // The whole loop
  // ---------------------------------------------------------------------

  /** The merged lead keeps the primary's id, name and creation time. */
  lemma {:induction false} FoldIdentity(primary: LeadRow, others: seq<LeadRow>)
    ensures FoldAll(primary, others).lead.id == primary.id
    ensures FoldAll(primary, others).lead.nombre == primary.nombre
    ensures FoldAll(primary, others).lead.creadoEn == primary.creadoEn
    decreases |others|
  {
    if others != [] {
      var n := |others| - 1;
      FoldIdentity(primary, others[..n]);
      AbsorbIdentity(FoldAll(primary, others[..n]), others[n]);
    }
  }

  /** Once a column is filled, later turns never overwrite it. */
  lemma {:induction false} FilledStays(primary: LeadRow, others: seq<LeadRow>, c: Column, k: nat)
    requires k <= |others| && !Blank(Get(FoldAll(primary, others[..k]).lead, c))
    ensures Get(FoldAll(primary, others).lead, c) == Get(FoldAll(primary, others[..k]).lead, c)
    decreases |others| - k
  {
    if k < |others| {
      var next := others[..k + 1];
      assert next[..k] == others[..k];
      AbsorbColumn(FoldAll(primary, others[..k]), others[k], c);
      FilledStays(primary, others, c, k + 1);
    } else {
      assert others[..k] == others;
    }
  }

  /** While the column and every other so far is blank, the column holds the
      last other's raw value (the primary's before any turn). */
  lemma {:induction false} BlankSoFar(primary: LeadRow, others: seq<LeadRow>, c: Column, k: nat)
    requires k <= |others| && Blank(Get(primary, c))
    requires forall j :: 0 <= j < k ==> Blank(Get(others[j], c))
    ensures Get(FoldAll(primary, others[..k]).lead, c) == if k == 0 then Get(primary, c) else Get(others[k - 1], c)
    decreases k
  {
    if k > 0 {
      var front := others[..k];
      assert front[..k - 1] == others[..k - 1];
      BlankSoFar(primary, others, c, k - 1);
      AbsorbColumn(FoldAll(primary, others[..k - 1]), others[k - 1], c);
    }
  }

  /** A filled column of the primary is kept as it is. */
  lemma KeepFilled(primary: LeadRow, others: seq<LeadRow>, c: Column)
    requires !Blank(Get(primary, c))
    ensures Get(FoldAll(primary, others).lead, c) == Get(primary, c)
  {
    assert others[..0] == [];
    FilledStays(primary, others, c, 0);
  }

  /** A blank column of the primary ends up as the first non-blank value
      among the others. */
  lemma FirstFilled(primary: LeadRow, others: seq<LeadRow>, c: Column, i: nat)
    requires Blank(Get(primary, c))
    requires i < |others| && !Blank(Get(others[i], c))
    requires forall j :: 0 <= j < i ==> Blank(Get(others[j], c))
    ensures Get(FoldAll(primary, others).lead, c) == Get(others[i], c)
  {
    BlankSoFar(primary, others, c, i);
    var next := others[..i + 1];
    assert next[..i] == others[..i];
    AbsorbColumn(FoldAll(primary, others[..i]), others[i], c);
    FilledStays(primary, others, c, i + 1);
  }

  /** When the primary and every other leave a column blank, it ends up as
      the last other's raw value: whitespace may become `null` or the
      reverse. */
  lemma AllBlank(primary: LeadRow, others: seq<LeadRow>, c: Column)
    requires Blank(Get(primary, c)) && others != []
    requires forall j :: 0 <= j < |others| ==> Blank(Get(others[j], c))
    ensures Get(FoldAll(primary, others).lead, c) == Get(others[|others| - 1], c)
  {
    BlankSoFar(primary, others, c, |others|);
    assert others[..|others|] == others;
  }

  /** Once the stage is set, later turns keep it. */
  lemma {:induction false} StageStays(primary: LeadRow, others: seq<LeadRow>, k: nat)
    requires k <= |others| && Truthy(FoldAll(primary, others[..k]).lead.stageId)
    ensures FoldAll(primary, others).lead.stageId == FoldAll(primary, others[..k]).lead.stageId
    decreases |others| - k
  {
    if k < |others| {
      var next := others[..k + 1];
      assert next[..k] == others[..k];
      AbsorbStage(FoldAll(primary, others[..k]), others[k]);
      StageStays(primary, others, k + 1);
    } else {
      assert others[..k] == others;
    }
  }

  /** While no stage has been found, the primary's stays. */
  lemma {:induction false} NoStageSoFar(primary: LeadRow, others: seq<LeadRow>, k: nat)
    requires k <= |others| && !Truthy(primary.stageId)
    requires forall j :: 0 <= j < k ==> !Truthy(others[j].stageId)
    ensures FoldAll(primary, others[..k]).lead.stageId == primary.stageId
    decreases k
  {
    if k > 0 {
      var front := others[..k];
      assert front[..k - 1] == others[..k - 1];
      NoStageSoFar(primary, others, k - 1);
      AbsorbStage(FoldAll(primary, others[..k - 1]), others[k - 1]);
    }
  }

  /** `others[i]` is the first of the others with a stage. */
  predicate FirstStaged(others: seq<LeadRow>, i: int) {
    0 <= i < |others| && Truthy(others[i].stageId) && forall j :: 0 <= j < i ==> !Truthy(others[j].stageId)
  }

  /** The stage is the primary's if set, else the first other's that is set,
      else the primary's falsy one. */
  lemma StageChoice(primary: LeadRow, others: seq<LeadRow>)
    ensures Truthy(primary.stageId) ==> FoldAll(primary, others).lead.stageId == primary.stageId
    ensures forall i :: !Truthy(primary.stageId) && FirstStaged(others, i) ==>
      FoldAll(primary, others).lead.stageId == others[i].stageId
    ensures !Truthy(primary.stageId) && (forall j :: 0 <= j < |others| ==> !Truthy(others[j].stageId)) ==>
      FoldAll(primary, others).lead.stageId == primary.stageId
  {
    assert others[..0] == [];
    if Truthy(primary.stageId) {
      StageStays(primary, others, 0);
    }
    forall i | !Truthy(primary.stageId) && FirstStaged(others, i)
      ensures FoldAll(primary, others).lead.stageId == others[i].stageId
    {
      NoStageSoFar(primary, others, i);
      var next := others[..i + 1];
      assert next[..i] == others[..i];
      AbsorbStage(FoldAll(primary, others[..i]), others[i]);
      StageStays(primary, others, i + 1);
    }
    if !Truthy(primary.stageId) && (forall j :: 0 <= j < |others| ==> !Truthy(others[j].stageId)) {
      NoStageSoFar(primary, others, |others|);
      assert others[..|others|] == others;
    }
  }

  /** The priority the loop arrives at, told apart from the rest of the
      fold. */
  function TopPriority(primary: LeadRow, others: seq<LeadRow>): Priority
    decreases |others|
  {
    if others == [] then primary.prioridad
    else
      var n := |others| - 1;
      var p := TopPriority(primary, others[..n]);
      if others[n].prioridad.Rank() > p.Rank() then others[n].prioridad else p
  }

  /** The loop's priority is `TopPriority`. */
  lemma {:induction false} FoldPriority(primary: LeadRow, others: seq<LeadRow>)
    ensures FoldAll(primary, others).lead.prioridad == TopPriority(primary, others)
    decreases |others|
  {
    if others != [] {
      var n := |others| - 1;
      FoldPriority(primary, others[..n]);
      AbsorbPriority(FoldAll(primary, others[..n]), others[n]);
    }
  }

  /** The merged priority is the highest-ranked priority of the primary and
      the others, and is one of theirs. */
  lemma {:induction false} PriorityMax(primary: LeadRow, others: seq<LeadRow>)
    ensures TopPriority(primary, others).Rank() >= primary.prioridad.Rank()
    ensures forall j :: 0 <= j < |others| ==> TopPriority(primary, others).Rank() >= others[j].prioridad.Rank()
    ensures TopPriority(primary, others) == primary.prioridad
      || exists j :: 0 <= j < |others| && TopPriority(primary, others) == others[j].prioridad
    decreases |others|
  {
    if others != [] {
      var n := |others| - 1;
      var front := others[..n];
      PriorityMax(primary, front);
      assert forall j :: 0 <= j < n ==> front[j] == others[j];
    }
  }

  /** A running latest date, told apart from the rest of the fold. */
  function LatestOf(primary: LeadRow, others: seq<LeadRow>, w: DateColumn): Option<int>
    decreases |others|
  {
    if others == [] then DateOf(primary, w)
    else
      var n := |others| - 1;
      Later(LatestOf(primary, others[..n], w), DateOf(others[n], w))
  }

  /** The loop's dates are `LatestOf`. */
  lemma {:induction false} FoldDate(primary: LeadRow, others: seq<LeadRow>, w: DateColumn)
    ensures FoldAll(primary, others).Latest(w) == LatestOf(primary, others, w)
    decreases |others|
  {
    if others != [] {
      var n := |others| - 1;
      FoldDate(primary, others[..n], w);
      AbsorbDate(FoldAll(primary, others[..n]), others[n], w);
    }
  }

  /** A date is missing after the merge only when every lead lacks it. */
  lemma {:induction false} LatestMissing(primary: LeadRow, others: seq<LeadRow>, w: DateColumn)
    ensures LatestOf(primary, others, w).None? <==>
      DateOf(primary, w).None? && forall j :: 0 <= j < |others| ==> DateOf(others[j], w).None?
    decreases |others|
  {
    if others != [] {
      var n := |others| - 1;
      var front := others[..n];
      LatestMissing(primary, front, w);
      assert forall j :: 0 <= j < n ==> front[j] == others[j];
    }
  }

  /** Each date ends up no earlier than any lead's, and is one of them. */
  lemma {:induction false} LatestIsMax(primary: LeadRow, others: seq<LeadRow>, w: DateColumn)
    ensures DateOf(primary, w).Some? ==>
      (LatestOf(primary, others, w).Some? && LatestOf(primary, others, w).value >= DateOf(primary, w).value)
    ensures forall j :: 0 <= j < |others| && DateOf(others[j], w).Some? ==>
      (LatestOf(primary, others, w).Some? && LatestOf(primary, others, w).value >= DateOf(others[j], w).value)
    ensures LatestOf(primary, others, w) == DateOf(primary, w)
      || exists j :: 0 <= j < |others| && LatestOf(primary, others, w) == DateOf(others[j], w)
    decreases |others|
  {
    if others != [] {
      var n := |others| - 1;
      var front := others[..n];
      LatestIsMax(primary, front, w);
      assert forall j :: 0 <= j < n ==> front[j] == others[j];
    }
  }

  // ---------------------------------------------------------------------
  // Tags and deal
  // ---------------------------------------------------------------------

  /** The tag ids of the others' links. */
  function OthersTags(links: set<TagLink>, others: seq<LeadRow>): (r: set<string>)
    ensures forall t :: t in r <==> exists i :: 0 <= i < |others| && TagLink(others[i].id, t) in links
    decreases |others|
  {
    if others == [] then {}
    else
      var n := |others| - 1;
      var front := OthersTags(links, others[..n]);
      assert forall i :: 0 <= i < n ==> others[..n][i] == others[i];
      front + TagsOf(links, others[n].id)
  }

  /** `tagIds`: the primary's tags and every other's. */
  function MergedTags(links: set<TagLink>, primaryId: string, others: seq<LeadRow>): (r: set<string>)
    ensures forall t :: t in r <==>
      TagLink(primaryId, t) in links || exists i :: 0 <= i < |others| && TagLink(others[i].id, t) in links
  {
    TagsOf(links, primaryId) + OthersTags(links, others)
  }

  /** `primary.deal ?? deals[0] ?? null`: the terms the primary's deal
      takes. */
  function TargetDeal(primaryDeal: Option<Deal>, deals: seq<Deal>): (r: Option<DealTerms>)
    ensures primaryDeal.Some? ==> r == Some(primaryDeal.value.terms)
    ensures primaryDeal.None? && deals != [] ==> r == Some(deals[0].terms)
    ensures r.None? <==> primaryDeal.None? && deals == []
  {
    match primaryDeal
    case Some(d) => Some(d.terms)
    case None => if deals != [] then Some(deals[0].terms) else None
  }

  // ---------------------------------------------------------------------
  // The endpoint
  // ---------------------------------------------------------------------

  datatype MergeError =
    | InvalidInput  // 400 "Datos invalidos"
    | NotFound      // 404 "Lead principal no encontrado"

  /** `primaryId` is truthy and `mergeIds` a non-empty array. */
  predicate ValidRequest(primaryId: Option<string>, mergeIds: Option<seq<string>>) {
    primaryId.Some? && primaryId.value != "" && mergeIds.Some? && |mergeIds.value| > 0
  }

  /** What the merge writes for the primary: the folded columns and dates. */
  function MergedRow(primary: LeadRow, others: seq<LeadRow>): LeadRow {
    var f := FoldAll(primary, others);
    f.lead.(ultimoContacto := f.contacto, proximoSeguimiento := f.seguimiento)
  }

  /** The leads `findMany({ where: { id: { in: mergeIds } } })` returns. */
  function Others(s: Store, ids: set<string>): seq<LeadRow> {
    Filter(s.leads, (l: LeadRow) => l.id in ids)
  }

  /** The deals `deal.findMany({ where: { leadId: { in: mergeIds } } })`
      returns. */
  function OthersDeals(s: Store, ids: set<string>): seq<Deal> {
    Filter(s.deals, (d: Deal) => d.leadId in ids)
  }

  /** The store after the primary's update, before the rest of the
      transaction. */
  function Updated(s: Store, primary: LeadRow, ids: set<string>, newDealId: string): Store {
    var others := Others(s, ids);
    var tags := MergedTags(s.tagLinks, primary.id, others);
    var target := TargetDeal(DealOf(s.deals, primary.id), OthersDeals(s, ids));
    s.(leads := UpdateRow(s.leads, MergedRow(primary, others)),
       tagLinks := (set l | l in s.tagLinks && l.leadId != primary.id) + (set t | t in tags :: TagLink(primary.id, t)),
       deals := if target.Some? then UpsertDeal(s.deals, primary.id, target.value, newDealId) else s.deals)
  }

  /** The store after the whole transaction. */
  function Merged(s: Store, primary: LeadRow, ids: set<string>, newDealId: string): Store {
    var u := Updated(s, primary, ids, newDealId);
    u.(interactions := RepointInteractions(u.interactions, ids, primary.id),
       changes := RepointChanges(u.changes, ids, primary.id),
       tagLinks := (set l | l in u.tagLinks && l.leadId !in ids),
       deals := Filter(u.deals, (d: Deal) => d.leadId !in ids),
       leads := Filter(u.leads, (l: LeadRow) => l.id !in ids))
  }

  /** After a merge no lead, tag link or deal of a merged id is left. */
  lemma MergedRemoves(s: Store, primary: LeadRow, ids: set<string>, newDealId: string)
    ensures forall l :: l in Merged(s, primary, ids, newDealId).leads ==> l.id !in ids
    ensures forall t :: t in Merged(s, primary, ids, newDealId).tagLinks ==> t.leadId !in ids
    ensures forall d :: d in Merged(s, primary, ids, newDealId).deals ==> d.leadId !in ids
  {
  }

  /** No interaction or change is lost: each keeps its place and id, and
      those of a merged lead now belong to the primary. */
  lemma MergedRepoints(s: Store, primary: LeadRow, ids: set<string>, newDealId: string)
    ensures |Merged(s, primary, ids, newDealId).interactions| == |s.interactions|
    ensures forall i :: 0 <= i < |s.interactions| ==>
      Merged(s, primary, ids, newDealId).interactions[i].id == s.interactions[i].id &&
      Merged(s, primary, ids, newDealId).interactions[i].leadId ==
        if s.interactions[i].leadId in ids then primary.id else s.interactions[i].leadId
    ensures |Merged(s, primary, ids, newDealId).changes| == |s.changes|
    ensures forall i :: 0 <= i < |s.changes| ==>
      Merged(s, primary, ids, newDealId).changes[i].id == s.changes[i].id &&
      Merged(s, primary, ids, newDealId).changes[i].campo == s.changes[i].campo &&
      Merged(s, primary, ids, newDealId).changes[i].leadId ==
        if s.changes[i].leadId in ids then primary.id else s.changes[i].leadId
  {
  }

  /** Leads outside the merge are untouched. */
  lemma MergedKeepsLeads(s: Store, primary: LeadRow, ids: set<string>, newDealId: string)
    ensures forall l :: l in s.leads && l.id !in ids && l.id != primary.id ==>
      l in Merged(s, primary, ids, newDealId).leads
  {
    var u := Updated(s, primary, ids, newDealId);
    FoldIdentity(primary, Others(s, ids));
    forall l | l in s.leads && l.id !in ids && l.id != primary.id ensures l in Merged(s, primary, ids, newDealId).leads {
      var i :| 0 <= i < |s.leads| && s.leads[i] == l;
      assert u.leads[i] == l;
    }
  }

  /** Tag links of leads outside the merge are untouched. */
  lemma MergedKeepsLinks(s: Store, primary: LeadRow, ids: set<string>, newDealId: string)
    ensures forall t: TagLink :: t.leadId !in ids && t.leadId != primary.id ==>
      (t in Merged(s, primary, ids, newDealId).tagLinks <==> t in s.tagLinks)
  {
  }

  /** Deals of leads outside the merge are untouched. */
  lemma MergedKeepsDeals(s: Store, primary: LeadRow, ids: set<string>, newDealId: string)
    ensures forall d :: d in s.deals && d.leadId !in ids && d.leadId != primary.id ==>
      d in Merged(s, primary, ids, newDealId).deals
  {
    var u := Updated(s, primary, ids, newDealId);
    forall d | d in s.deals && d.leadId !in ids && d.leadId != primary.id ensures d in Merged(s, primary, ids, newDealId).deals {
      var i :| 0 <= i < |s.deals| && s.deals[i] == d;
      assert u.deals[i] == d;
    }
  }

  /** The primary, when it is not among the merged ids, is stored as the
      merged row, and under its id there is nothing else. */
  lemma MergedPrimary(s: Store, primary: LeadRow, ids: set<string>, newDealId: string)
    requires primary in s.leads && primary.id !in ids
    ensures MergedRow(primary, Others(s, ids)) in Merged(s, primary, ids, newDealId).leads
    ensures forall l :: l in Merged(s, primary, ids, newDealId).leads && l.id == primary.id ==>
      l == MergedRow(primary, Others(s, ids))
  {
    var row := MergedRow(primary, Others(s, ids));
    var u := Updated(s, primary, ids, newDealId);
    FoldIdentity(primary, Others(s, ids));
    var i :| 0 <= i < |s.leads| && s.leads[i] == primary;
    assert u.leads[i] == row;
    forall l | l in Merged(s, primary, ids, newDealId).leads && l.id == primary.id ensures l == row {
      var k :| 0 <= k < |u.leads| && u.leads[k] == l;
    }
  }

  /** The primary's tags become the union of everyone's. */
  lemma MergedPrimaryTags(s: Store, primary: LeadRow, ids: set<string>, newDealId: string)
    requires primary.id !in ids
    ensures TagsOf(Merged(s, primary, ids, newDealId).tagLinks, primary.id) ==
      MergedTags(s.tagLinks, primary.id, Others(s, ids))
  {
    var r := Merged(s, primary, ids, newDealId);
    var tags := MergedTags(s.tagLinks, primary.id, Others(s, ids));
    forall t ensures t in TagsOf(r.tagLinks, primary.id) <==> t in tags {
      if t in tags {
        assert TagLink(primary.id, t) in r.tagLinks;
      }
    }
  }

  /** The primary keeps or gains exactly the target deal's terms; with no
      target it has no deal. */
  lemma MergedPrimaryDeal(s: Store, primary: LeadRow, ids: set<string>, newDealId: string)
    requires primary.id !in ids
    ensures TargetDeal(DealOf(s.deals, primary.id), OthersDeals(s, ids)).Some? ==>
      exists d :: d in Merged(s, primary, ids, newDealId).deals && d.leadId == primary.id
    ensures forall d :: d in Merged(s, primary, ids, newDealId).deals && d.leadId == primary.id ==>
      TargetDeal(DealOf(s.deals, primary.id), OthersDeals(s, ids)) == Some(d.terms)
  {
    var target := TargetDeal(DealOf(s.deals, primary.id), OthersDeals(s, ids));
    var u := Updated(s, primary, ids, newDealId);
    var r := Merged(s, primary, ids, newDealId);
    if target.Some? {
      var existing := DealOf(s.deals, primary.id);
      if existing.Some? {
        var i :| 0 <= i < |s.deals| && s.deals[i] == existing.value;
        assert u.deals[i] in r.deals && u.deals[i].leadId == primary.id;
      } else {
        assert u.deals[|s.deals|] in r.deals && u.deals[|s.deals|].leadId == primary.id;
      }
    }
    forall d | d in r.deals && d.leadId == primary.id ensures target == Some(d.terms) {
      var k :| 0 <= k < |u.deals| && u.deals[k] == d;
      if k < |s.deals| {
        assert s.deals[k].leadId == primary.id;
      }
    }
  }

  /** A merge keeps lead ids unique and each lead with at most one deal. */
  lemma MergedValid(s: Store, primary: LeadRow, ids: set<string>, newDealId: string)
    requires Valid(s)
    ensures Valid(Merged(s, primary, ids, newDealId))
  {
    var u := Updated(s, primary, ids, newDealId);
    FoldIdentity(primary, Others(s, ids));
    FilterDistinct(u.leads, (l: LeadRow) => l.id !in ids, (l: LeadRow) => l.id);
    var target := TargetDeal(DealOf(s.deals, primary.id), OthersDeals(s, ids));
    if target.Some? && DealOf(s.deals, primary.id).None? {
      forall i, j | 0 <= i < j < |u.deals| ensures u.deals[i].leadId != u.deals[j].leadId {
        if j == |s.deals| {
          assert s.deals[i] in s.deals;
        }
      }
    }
    FilterDistinct(u.deals, (d: Deal) => d.leadId !in ids, (d: Deal) => d.leadId);
  }

  /** `POST /api/leads/merge`.  `newDealId` is the id the database gives a
      deal the upsert creates. */
  method MergeLeads(db: Db, primaryId: Option<string>, mergeIds: Option<seq<string>>, newDealId: string)
    returns (r: Result<bool, MergeError>)
    modifies db
    ensures !ValidRequest(primaryId, mergeIds) ==> r == Err(InvalidInput) && unchanged(db)
    ensures ValidRequest(primaryId, mergeIds) && FindLead(old(db.leads), primaryId.value).None? ==>
      r == Err(NotFound) && unchanged(db)
    ensures ValidRequest(primaryId, mergeIds) && FindLead(old(db.leads), primaryId.value).Some? ==>
      r == Ok(true) &&
      db.State() == Merged(old(db.State()), FindLead(old(db.leads), primaryId.value).value,
        (set id | id in mergeIds.value), newDealId)
  {
    if !ValidRequest(primaryId, mergeIds) {
      return Err(InvalidInput);
    }
    var ids := set id | id in mergeIds.value;
    var s := db.State();
    var found := FindLead(db.leads, primaryId.value);
    var others := Filter(db.leads, (l: LeadRow) => l.id in ids);
    var deals := Filter(db.deals, (d: Deal) => d.leadId in ids);
    if found.None? {
      return Err(NotFound);
    }
    var primary := found.value;
    var merged, latestContacto, latestSeguimiento := Reconcile(primary, others);
    var tagIds := MergedTags(db.tagLinks, primary.id, others);
    var targetDeal := TargetDeal(DealOf(db.deals, primary.id), deals);
    db.UpdateLead(merged.(ultimoContacto := latestContacto, proximoSeguimiento := latestSeguimiento));
    db.ReplaceTags(primary.id, tagIds);
    if targetDeal.Some? {
      db.Upsert(primary.id, targetDeal.value, newDealId);
    }
    assert db.State() == Updated(s, primary, ids, newDealId);
    db.Repoint(ids, primary.id);
    db.DeleteLeads(ids);
    return Ok(true);
  }
}
