/**
 * The records the lead endpoints read and write: the priority scale of
 * src/lib/constants.ts, the rows of the lead, tag-link, deal, interaction
 * and change tables, and the store that holds them.  Timestamps are
 * integers (milliseconds), compared the way JavaScript compares `Date`s.
 */
module Domain {
  import opened Wrappers

  /** `LEAD_PRIORIDADES`: the three priorities, highest first. */
  datatype Priority = Alta | Media | Baja {

    /** The stored spelling. */
    function Name(): string {
      match this
      case Alta => "ALTA"
      case Media => "MEDIA"
      case Baja => "BAJA"
    }

    /** `priorityRank` of the merge endpoint: `BAJA` 1, `MEDIA` 2, `ALTA` 3. */
    function Rank(): nat {
      match this
      case Baja => 1
      case Media => 2
      case Alta => 3
    }
  }

  /** `LEAD_PRIORIDADES`, in declaration order. */
  const Priorities: seq<Priority> := [Alta, Media, Baja]

  /** `LEAD_PRIORIDADES.includes(s)`: the priority spelled `s`, if any. */
  function PriorityNamed(s: string): (r: Option<Priority>)
    ensures r.Some? ==> r.value.Name() == s
    ensures r.None? ==> forall p: Priority :: p.Name() != s
  {
    if s == "ALTA" then Some(Alta)
    else if s == "MEDIA" then Some(Media)
    else if s == "BAJA" then Some(Baja)
    else None
  }

  /** Every priority is listed, under a distinct name and a distinct rank, so
      the rank order is total and spelling a priority and reading it back
      gives it again. */
  lemma PriorityScale(p: Priority, q: Priority)
    ensures p in Priorities
    ensures PriorityNamed(p.Name()) == Some(p)
    ensures p.Name() == q.Name() <==> p == q
    ensures p.Rank() == q.Rank() <==> p == q
    ensures Baja.Rank() < Media.Rank() < Alta.Rank()
  {
  }

  /** A row of the lead table.  Optional text columns are `None` for SQL
      `NULL`. */
  datatype LeadRow = LeadRow(
    id: string,
    nombre: string,
    empresa: Option<string>,
    rubro: Option<string>,
    ciudad: Option<string>,
    telefono: Option<string>,
    whatsapp: Option<string>,
    instagram: Option<string>,
    web: Option<string>,
    fuente: Option<string>,
    nota: Option<string>,
    stageId: Option<string>,
    prioridad: Priority,
    ultimoContacto: Option<int>,
    proximoSeguimiento: Option<int>,
    creadoEn: int)

  /** A row of the lead-to-tag link table. */
  datatype TagLink = TagLink(leadId: string, tagId: string)

  /** What a deal records, apart from its identity and owner. */
  datatype DealTerms = DealTerms(
    currency: string,
    monthlyPriceCents: int,
    setupPriceCents: int,
    closedAt: int,
    notes: Option<string>)

  /** A row of the deal table; a lead owns at most one deal. */
  datatype Deal = Deal(id: string, leadId: string, terms: DealTerms)

  /** A row of the interaction table (its content does not matter here). */
  datatype Interaction = Interaction(id: string, leadId: string)

  /** A row of the change-history table. */
  datatype ChangeRow = ChangeRow(id: string, leadId: string, campo: string)

  /** The tables the endpoints touch, each in the order a query without
      `orderBy` returns it. */
  datatype Store = Store(
    leads: seq<LeadRow>,
    tagLinks: set<TagLink>,
    deals: seq<Deal>,
    interactions: seq<Interaction>,
    changes: seq<ChangeRow>)

  /** Lead ids are unique and a lead owns at most one deal. */
  predicate Valid(s: Store) {
    && (forall i, j :: 0 <= i < j < |s.leads| ==> s.leads[i].id != s.leads[j].id)
    && (forall i, j :: 0 <= i < j < |s.deals| ==> s.deals[i].leadId != s.deals[j].leadId)
  }

  /** `prisma.lead.findUnique({ where: { id } })`. */
  function FindLead(leads: seq<LeadRow>, id: string): (r: Option<LeadRow>)
    ensures r.Some? ==> r.value in leads && r.value.id == id
    ensures r.None? ==> forall l :: l in leads ==> l.id != id
  {
    if leads == [] then None
    else if leads[0].id == id then Some(leads[0])
    else FindLead(leads[1..], id)
  }
}
