/**
 * The tables the lead endpoints write, as one object whose fields the
 * store's operations update: each operation is one Prisma call of the
 * merge and import endpoints, with its effect on the rows it matches.
 */
module Database {
  import opened Wrappers
  import opened Domain

  /** The elements of `xs` that `keep` accepts, in order. */
  function Filter<T(!new)>(xs: seq<T>, keep: T -> bool): (r: seq<T>)
    ensures |r| <= |xs|
    ensures forall x :: x in r <==> x in xs && keep(x)
    decreases |xs|
  {
    if xs == [] then []
    else
      var n := |xs| - 1;
      var front := Filter(xs[..n], keep);
      assert forall x :: x in xs <==> x in xs[..n] || x == xs[n] by {
        assert xs == xs[..n] + [xs[n]];
      }
      front + (if keep(xs[n]) then [xs[n]] else [])
  }

  /** Filtering keeps keys that were distinct distinct. */
  lemma {:induction false} FilterDistinct<T(!new), K>(xs: seq<T>, keep: T -> bool, key: T -> K)
    requires forall i, j :: 0 <= i < j < |xs| ==> key(xs[i]) != key(xs[j])
    ensures forall i, j :: 0 <= i < j < |Filter(xs, keep)| ==> key(Filter(xs, keep)[i]) != key(Filter(xs, keep)[j])
    decreases |xs|
  {
    if xs != [] {
      var n := |xs| - 1;
      var front := Filter(xs[..n], keep);
      FilterDistinct(xs[..n], keep, key);
      var r := Filter(xs, keep);
      assert r == front + (if keep(xs[n]) then [xs[n]] else []);
      forall i, j | 0 <= i < j < |r| ensures key(r[i]) != key(r[j]) {
        if j >= |front| {
          assert r[i] == front[i] && r[i] in xs[..n];
          var k :| 0 <= k < n && xs[..n][k] == r[i];
          assert xs[k] == r[i] && r[j] == xs[n];
        } else {
          assert r[i] == front[i] && r[j] == front[j];
        }
      }
    }
  }

  /** `lead.update({ where: { id: row.id } })`: the row with that id takes the
      new columns; every other row, and the order, is kept. */
  function UpdateRow(leads: seq<LeadRow>, row: LeadRow): (r: seq<LeadRow>)
    ensures |r| == |leads|
    ensures forall i :: 0 <= i < |r| ==> r[i].id == leads[i].id
    ensures forall i :: 0 <= i < |r| ==> r[i] == (if leads[i].id == row.id then row else leads[i])
  {
    seq(|leads|, i requires 0 <= i < |leads| => if leads[i].id == row.id then row else leads[i])
  }

  /** `updateMany({ where: { leadId: { in: ids } }, data: { leadId: to } })`
      on the interaction table. */
  function RepointInteractions(xs: seq<Interaction>, ids: set<string>, to: string): (r: seq<Interaction>)
    ensures |r| == |xs|
    ensures forall i :: 0 <= i < |r| ==> r[i].id == xs[i].id
    ensures forall i :: 0 <= i < |r| ==> r[i].leadId == if xs[i].leadId in ids then to else xs[i].leadId
  {
    seq(|xs|, i requires 0 <= i < |xs| => if xs[i].leadId in ids then xs[i].(leadId := to) else xs[i])
  }

  /** The same on the change-history table. */
  function RepointChanges(xs: seq<ChangeRow>, ids: set<string>, to: string): (r: seq<ChangeRow>)
    ensures |r| == |xs|
    ensures forall i :: 0 <= i < |r| ==> r[i].id == xs[i].id && r[i].campo == xs[i].campo
    ensures forall i :: 0 <= i < |r| ==> r[i].leadId == if xs[i].leadId in ids then to else xs[i].leadId
  {
    seq(|xs|, i requires 0 <= i < |xs| => if xs[i].leadId in ids then xs[i].(leadId := to) else xs[i])
  }

  /** The deal of a lead, if it has one. */
  function DealOf(deals: seq<Deal>, leadId: string): (r: Option<Deal>)
    ensures r.Some? ==> r.value in deals && r.value.leadId == leadId
    ensures r.None? ==> forall d :: d in deals ==> d.leadId != leadId
  {
    if deals == [] then None
    else if deals[0].leadId == leadId then Some(deals[0])
    else DealOf(deals[1..], leadId)
  }

  /** `deal: { upsert: { create: terms, update: terms } }`: the lead's deal
      takes the terms, or a deal with them is created. */
  function UpsertDeal(deals: seq<Deal>, leadId: string, terms: DealTerms, newId: string): (r: seq<Deal>)
    ensures DealOf(deals, leadId).Some? ==> |r| == |deals|
    ensures DealOf(deals, leadId).None? ==> r == deals + [Deal(newId, leadId, terms)]
    ensures forall i :: 0 <= i < |deals| ==>
      r[i] == if deals[i].leadId == leadId then deals[i].(terms := terms) else deals[i]
  {
    if DealOf(deals, leadId).Some? then
      seq(|deals|, i requires 0 <= i < |deals| =>
        if deals[i].leadId == leadId then deals[i].(terms := terms) else deals[i])
    else deals + [Deal(newId, leadId, terms)]
  }

  /** The tag links of a lead, as tag ids. */
  function TagsOf(links: set<TagLink>, leadId: string): set<string> {
    set l | l in links && l.leadId == leadId :: l.tagId
  }

  /** The store: five tables, each updated in place by the operations. */
  class Db {
    var leads: seq<LeadRow>
    var tagLinks: set<TagLink>
    var deals: seq<Deal>
    var interactions: seq<Interaction>
    var changes: seq<ChangeRow>

    constructor (s: Store)
      ensures State() == s
    {
      leads, tagLinks, deals, interactions, changes := s.leads, s.tagLinks, s.deals, s.interactions, s.changes;
    }

    /** The tables as a value. */
    function State(): Store
      reads this
    {
      Store(leads, tagLinks, deals, interactions, changes)
    }

    /** `lead.update` of the scalar columns of `row`'s lead. */
    method UpdateLead(row: LeadRow)
      modifies this
      ensures State() == old(State()).(leads := UpdateRow(old(leads), row))
    {
      leads := UpdateRow(leads, row);
    }

    /** `tags: { deleteMany: {}, create: tagIds }` on one lead: its links are
        replaced by one per tag id. */
    method ReplaceTags(leadId: string, tagIds: set<string>)
      modifies this
      ensures State() == old(State()).(tagLinks :=
        (set l | l in old(tagLinks) && l.leadId != leadId) + (set t | t in tagIds :: TagLink(leadId, t)))
    {
      tagLinks := (set l | l in tagLinks && l.leadId != leadId) + (set t | t in tagIds :: TagLink(leadId, t));
    }

    /** The deal upsert of one lead. */
    method Upsert(leadId: string, terms: DealTerms, newId: string)
      modifies this
      ensures State() == old(State()).(deals := UpsertDeal(old(deals), leadId, terms, newId))
    {
      deals := UpsertDeal(deals, leadId, terms, newId);
    }

    /** `interaccion.updateMany` and `leadChange.updateMany` moving the rows
        of the leads in `ids` to `to`. */
    method Repoint(ids: set<string>, to: string)
      modifies this
      ensures State() == old(State()).(
        interactions := RepointInteractions(old(interactions), ids, to),
        changes := RepointChanges(old(changes), ids, to))
    {
      interactions := RepointInteractions(interactions, ids, to);
      changes := RepointChanges(changes, ids, to);
    }

    /** `leadTag.deleteMany`, `deal.deleteMany` and `lead.deleteMany` over
        the leads in `ids`. */
    method DeleteLeads(ids: set<string>)
      modifies this
      ensures State() == old(State()).(
        tagLinks := (set l | l in old(tagLinks) && l.leadId !in ids),
        deals := Filter(old(deals), (d: Deal) => d.leadId !in ids),
        leads := Filter(old(leads), (l: LeadRow) => l.id !in ids))
    {
      tagLinks := set l | l in tagLinks && l.leadId !in ids;
      deals := Filter(deals, (d: Deal) => d.leadId !in ids);
      leads := Filter(leads, (l: LeadRow) => l.id !in ids);
    }

    /** `lead.createMany`: the rows are appended. */
    method CreateLeads(rows: seq<LeadRow>)
      modifies this
      ensures State() == old(State()).(leads := old(leads) + rows)
    {
      leads := leads + rows;
    }
  }
}
