/**
 * The CSV import endpoint (src/app/api/leads/import/route.ts): each parsed
 * record is read through the column mapping, records without a name are
 * dropped, records that share a contact or name key with an existing lead
 * or an earlier accepted record are skipped, and the rest are inserted with
 * a resolved stage and priority.
 */
module LeadImport {
  import opened Wrappers
  import opened Text
  import opened Domain
  import opened Database
  import Csv
  import D = Duplicates

  /** `mapping`: target field to CSV header.  A field missing from the map
      is unmapped (`null` or `undefined`). */
  type Mapping = map<string, string>

  /** `getValue(row, field)`: an unmapped field, or a header the record lacks,
      reads as the empty string. */
  function GetValue(mapping: Mapping, row: Csv.Record<string>, field: string): (r: string)
    ensures field !in mapping || mapping[field] == "" ==> r == ""
    ensures r != "" ==> field in mapping && mapping[field] in row.fields && r == row.fields[mapping[field]]
  {
    if field !in mapping || mapping[field] == "" then ""
    else if mapping[field] in row.fields then row.fields[mapping[field]]
    else ""
  }

  /** `toPrioridad`: the trimmed, upper-cased value, when it names a
      priority. */
  function ToPrioridad(v: string): (r: Option<Priority>)
    ensures r.Some? ==> v != "" && r.value.Name() == ToUpper(Trim(v))
    ensures r.None? ==> v == "" || forall p: Priority :: p.Name() != ToUpper(Trim(v))
  {
    if v == "" then None else PriorityNamed(ToUpper(Trim(v)))
  }

  /** `value || null`. */
  function OrNull(v: string): (r: Option<string>)
    ensures r.None? <==> v == ""
    ensures r.Some? ==> r.value == v
  {
    if v == "" then None else Some(v)
  }

  /** `parseDate(value)`, with the platform's date parser as an oracle that
      is consulted only for a non-empty value. */
  function ReadDate(parse: string -> Option<int>, v: string): (r: Option<int>)
    ensures v == "" ==> r.None?
    ensures v != "" ==> r == parse(v)
  {
    if v == "" then None else parse(v)
  }

  // ---------------------------------------------------------------------
  // Stages
  // ---------------------------------------------------------------------

  /** A row of the pipeline-stage table, in the order `findMany` returns. */
  datatype StageRow = StageRow(id: string, nombre: string, key: Option<string>)

  /** The `find` test: the normalized `estado` is non-empty and equals the
      stage's lower-cased name or key. */
  predicate Matches(s: StageRow, norm: string) {
    norm != "" && (ToLower(s.nombre) == norm || (s.key.Some? && ToLower(s.key.value) == norm))
  }

  /** `stages[i]` is the first stage that matches. */
  predicate FirstMatch(stages: seq<StageRow>, norm: string, i: int) {
    0 <= i < |stages| && Matches(stages[i], norm) && forall j :: 0 <= j < i ==> !Matches(stages[j], norm)
  }

  /** `stages.find(...)` from position `from`, as an index. */
  function FindStage(stages: seq<StageRow>, norm: string, from: nat): (r: Option<nat>)
    requires from <= |stages|
    requires forall j :: 0 <= j < from ==> !Matches(stages[j], norm)
    ensures r.Some? ==> FirstMatch(stages, norm, r.value)
    ensures r.None? ==> forall j :: 0 <= j < |stages| ==> !Matches(stages[j], norm)
    decreases |stages| - from
  {
    if from == |stages| then None
    else if Matches(stages[from], norm) then Some(from)
    else FindStage(stages, norm, from + 1)
  }

  /** `stage?.id ?? defaultStage?.id ?? null`. */
  function ResolveStage(stages: seq<StageRow>, estado: string): (r: Option<string>)
    ensures forall i :: FirstMatch(stages, Normalize(estado), i) ==> r == Some(stages[i].id)
    ensures (forall j :: 0 <= j < |stages| ==> !Matches(stages[j], Normalize(estado))) && stages != [] ==>
      r == Some(stages[0].id)
    ensures r.None? <==> stages == []
  {
    match FindStage(stages, Normalize(estado), 0)
    case Some(i) => Some(stages[i].id)
    case None => if stages != [] then Some(stages[0].id) else None
  }

  /** A blank `estado` never matches, so it takes the first stage. */
  lemma BlankEstado(stages: seq<StageRow>, estado: string)
    requires Normalize(estado) == "" && stages != []
    ensures ResolveStage(stages, estado) == Some(stages[0].id)
  {
  }

  // ---------------------------------------------------------------------
  // Keys and running sets
  // ---------------------------------------------------------------------

  /** The five dedup keys of a record or a lead. */
  datatype RowKeys = RowKeys(phone: string, whatsapp: string, instagram: string, web: string, name: string) {
    function Of(t: D.KeyType): string {
      match t
      case Telefono => phone
      case WhatsApp => whatsapp
      case Instagram => instagram
      case Web => web
      case NombreEmpresa => name
    }
  }

  /** `phoneKey`, `whatsappKey`, `instagramKey`, `webKey` and `nameKey` of a
      record. */
  function KeysOf(mapping: Mapping, row: Csv.Record<string>): RowKeys {
    RowKeys(
      Normalize(GetValue(mapping, row, "telefono")),
      Normalize(GetValue(mapping, row, "whatsapp")),
      Normalize(GetValue(mapping, row, "instagram")),
      Normalize(GetValue(mapping, row, "web")),
      Normalize(GetValue(mapping, row, "nombre")) + "|" + Normalize(GetValue(mapping, row, "empresa")))
  }

  /** The same keys of a stored lead. */
  function LeadKeysOf(l: LeadRow): RowKeys {
    RowKeys(
      D.NormalizeOpt(l.telefono),
      D.NormalizeOpt(l.whatsapp),
      D.NormalizeOpt(l.instagram),
      D.NormalizeOpt(l.web),
      Normalize(l.nombre) + "|" + D.NormalizeOpt(l.empresa))
  }

  /** The five running sets. */
  datatype Seen = Seen(phones: set<string>, whatsapps: set<string>, instagrams: set<string>,
                       webs: set<string>, names: set<string>) {
    function Of(t: D.KeyType): set<string> {
      match t
      case Telefono => phones
      case WhatsApp => whatsapps
      case Instagram => instagrams
      case Web => webs
      case NombreEmpresa => names
    }
  }

  /** `existingPhones` ... `existingNameCompany`: the existing leads' non-empty
      contact keys, and their name keys other than `"|"`. */
  function Existing(leads: seq<LeadRow>): Seen {
    Seen(
      set l | l in leads && LeadKeysOf(l).phone != "" :: LeadKeysOf(l).phone,
      set l | l in leads && LeadKeysOf(l).whatsapp != "" :: LeadKeysOf(l).whatsapp,
      set l | l in leads && LeadKeysOf(l).instagram != "" :: LeadKeysOf(l).instagram,
      set l | l in leads && LeadKeysOf(l).web != "" :: LeadKeysOf(l).web,
      set l | l in leads && LeadKeysOf(l).name != "|" :: LeadKeysOf(l).name)
  }

  /** `duplicated`: some non-empty key is already in its set. */
  predicate Duplicated(k: RowKeys, seen: Seen) {
    (k.phone != "" && k.phone in seen.phones)
    || (k.whatsapp != "" && k.whatsapp in seen.whatsapps)
    || (k.instagram != "" && k.instagram in seen.instagrams)
    || (k.web != "" && k.web in seen.webs)
    || (k.name != "" && k.name in seen.names)
  }

  /** The five `add` calls of an accepted record. */
  function Register(seen: Seen, k: RowKeys): Seen {
    Seen(
      if k.phone != "" then seen.phones + {k.phone} else seen.phones,
      if k.whatsapp != "" then seen.whatsapps + {k.whatsapp} else seen.whatsapps,
      if k.instagram != "" then seen.instagrams + {k.instagram} else seen.instagrams,
      if k.web != "" then seen.webs + {k.web} else seen.webs,
      if k.name != "" then seen.names + {k.name} else seen.names)
  }

  /** The five `add` calls, one set at a time. */
  method AddKeys(seen: Seen, k: RowKeys) returns (r: Seen)
    ensures r == Register(seen, k)
    ensures forall t: D.KeyType :: r.Of(t) == seen.Of(t) + (if k.Of(t) != "" then {k.Of(t)} else {})
  {
    r := seen;
    if k.phone != "" { r := r.(phones := r.phones + {k.phone}); }
    if k.whatsapp != "" { r := r.(whatsapps := r.whatsapps + {k.whatsapp}); }
    if k.instagram != "" { r := r.(instagrams := r.instagrams + {k.instagram}); }
    if k.web != "" { r := r.(webs := r.webs + {k.web}); }
    if k.name != "" { r := r.(names := r.names + {k.name}); }
  }

  /** `duplicated` holds exactly when one kind of key clashes. */
  lemma DuplicatedMeans(k: RowKeys, seen: Seen)
    ensures Duplicated(k, seen) <==> exists t: D.KeyType :: k.Of(t) != "" && k.Of(t) in seen.Of(t)
  {
    if Duplicated(k, seen) {
      if k.phone != "" && k.phone in seen.phones {
        assert k.Of(D.Telefono) in seen.Of(D.Telefono);
      } else if k.whatsapp != "" && k.whatsapp in seen.whatsapps {
        assert k.Of(D.WhatsApp) in seen.Of(D.WhatsApp);
      } else if k.instagram != "" && k.instagram in seen.instagrams {
        assert k.Of(D.Instagram) in seen.Of(D.Instagram);
      } else if k.web != "" && k.web in seen.webs {
        assert k.Of(D.Web) in seen.Of(D.Web);
      } else {
        assert k.Of(D.NombreEmpresa) in seen.Of(D.NombreEmpresa);
      }
    }
  }

  /** Registering adds each non-empty key to its own set and nothing else. */
  lemma RegisterOf(seen: Seen, k: RowKeys, t: D.KeyType)
    ensures Register(seen, k).Of(t) == seen.Of(t) + (if k.Of(t) != "" then {k.Of(t)} else {})
  {
  }

  /** The keys of a sequence of records, in order. */
  function KeysList(mapping: Mapping, rows: seq<Csv.Record<string>>): (r: seq<RowKeys>)
    ensures |r| == |rows|
    ensures forall i :: 0 <= i < |rows| ==> r[i] == KeysOf(mapping, rows[i])
  {
    seq(|rows|, i requires 0 <= i < |rows| => KeysOf(mapping, rows[i]))
  }

  /** One more record adds its keys at the end. */
  lemma KeysListStep(mapping: Mapping, rows: seq<Csv.Record<string>>, row: Csv.Record<string>)
    ensures KeysList(mapping, rows + [row]) == KeysList(mapping, rows) + [KeysOf(mapping, row)]
  {
    assert KeysList(mapping, rows + [row])[|rows|] == KeysOf(mapping, row);
  }

  /** The keys known after accepting records with keys `accepted`, as an
      independent description: those of `base` (the existing leads' keys) and
      every accepted record's non-empty ones. */
  function Known(base: Seen, accepted: seq<RowKeys>, t: D.KeyType): set<string> {
    base.Of(t) + set k | k in accepted && k.Of(t) != "" :: k.Of(t)
  }

  // ---------------------------------------------------------------------
  // The record loop
  // ---------------------------------------------------------------------

  /** What the endpoint gets besides the body: the stages after
      `ensureDefaultStages`, the date parser, and the id and creation time
      the database gives each inserted lead. */
  datatype Context = Context(
    mapping: Mapping,
    stages: seq<StageRow>,
    parseDate: string -> Option<int>,
    freshId: nat -> string,
    now: int)

  /** The lead inserted for an accepted record, the `index`-th one. */
  function NewLead(ctx: Context, row: Csv.Record<string>, index: nat): LeadRow {
    LeadRow(
      ctx.freshId(index),
      GetValue(ctx.mapping, row, "nombre"),
      OrNull(GetValue(ctx.mapping, row, "empresa")),
      OrNull(GetValue(ctx.mapping, row, "rubro")),
      OrNull(GetValue(ctx.mapping, row, "ciudad")),
      OrNull(GetValue(ctx.mapping, row, "telefono")),
      OrNull(GetValue(ctx.mapping, row, "whatsapp")),
      OrNull(GetValue(ctx.mapping, row, "instagram")),
      OrNull(GetValue(ctx.mapping, row, "web")),
      OrNull(GetValue(ctx.mapping, row, "fuente")),
      OrNull(GetValue(ctx.mapping, row, "nota")),
      ResolveStage(ctx.stages, GetValue(ctx.mapping, row, "estado")),
      ToPrioridad(GetValue(ctx.mapping, row, "prioridad")).GetOr(Media),
      ReadDate(ctx.parseDate, GetValue(ctx.mapping, row, "ultimoContacto")),
      ReadDate(ctx.parseDate, GetValue(ctx.mapping, row, "proximoSeguimiento")),
      ctx.now)
  }

  /** An absent optional normalizes like the empty string. */
  lemma NormalizeOrNull(v: string)
    ensures D.NormalizeOpt(OrNull(v)) == Normalize(v)
  {
    if v == "" {
      assert Trim("") == "";
    }
  }

  /** The inserted lead has the record's keys. */
  lemma NewLeadKeys(ctx: Context, row: Csv.Record<string>, index: nat)
    ensures LeadKeysOf(NewLead(ctx, row, index)) == KeysOf(ctx.mapping, row)
  {
    NormalizeOrNull(GetValue(ctx.mapping, row, "telefono"));
    NormalizeOrNull(GetValue(ctx.mapping, row, "whatsapp"));
    NormalizeOrNull(GetValue(ctx.mapping, row, "instagram"));
    NormalizeOrNull(GetValue(ctx.mapping, row, "web"));
    NormalizeOrNull(GetValue(ctx.mapping, row, "empresa"));
  }

  /** The running sets, the records accepted so far and `skipped`. */
  datatype Tally = Tally(seen: Seen, accepted: seq<Csv.Record<string>>, skipped: nat)

  /** The `rows.map` callback on one record, as far as the running state
      goes: a nameless record changes nothing, a duplicated one counts as
      skipped, any other registers its keys and is accepted. */
  function Visit(mapping: Mapping, t: Tally, row: Csv.Record<string>): Tally {
    if GetValue(mapping, row, "nombre") == "" then t
    else if Duplicated(KeysOf(mapping, row), t.seen) then t.(skipped := t.skipped + 1)
    else Tally(Register(t.seen, KeysOf(mapping, row)), t.accepted + [row], t.skipped)
  }

  /** The callback run over `rows`, starting from the existing leads' keys. */
  function Run(mapping: Mapping, existing: seq<LeadRow>, rows: seq<Csv.Record<string>>): Tally
    decreases |rows|
  {
    if rows == [] then Tally(Existing(existing), [], 0)
    else Visit(mapping, Run(mapping, existing, rows[..|rows| - 1]), rows[|rows| - 1])
  }

  /** The leads `.filter(Boolean)` keeps: one per accepted record, in order,
      the `i`-th getting the `i`-th fresh id. */
  function Leads(ctx: Context, accepted: seq<Csv.Record<string>>): (r: seq<LeadRow>)
    ensures |r| == |accepted|
    ensures forall i :: 0 <= i < |r| ==> r[i] == NewLead(ctx, accepted[i], i)
  {
    seq(|accepted|, i requires 0 <= i < |accepted| => NewLead(ctx, accepted[i], i))
  }

  /** One more accepted record adds its lead at the end. */
  lemma LeadsStep(ctx: Context, accepted: seq<Csv.Record<string>>, row: Csv.Record<string>)
    ensures Leads(ctx, accepted + [row]) == Leads(ctx, accepted) + [NewLead(ctx, row, |accepted|)]
  {
    assert Leads(ctx, accepted + [row])[|accepted|] == NewLead(ctx, row, |accepted|);
  }

  /** The inserted lead carries the record's name, its position's id and the
      record's keys. */
  lemma NewLeadShape(ctx: Context, row: Csv.Record<string>, index: nat)
    ensures NewLead(ctx, row, index).nombre == GetValue(ctx.mapping, row, "nombre")
    ensures NewLead(ctx, row, index).id == ctx.freshId(index)
    ensures LeadKeysOf(NewLead(ctx, row, index)) == KeysOf(ctx.mapping, row)
  {
    NewLeadKeys(ctx, row, index);
  }

  /** The number of records without a name. */
  function Nameless(mapping: Mapping, rows: seq<Csv.Record<string>>): nat
    decreases |rows|
  {
    if rows == [] then 0
    else Nameless(mapping, rows[..|rows| - 1]) + if GetValue(mapping, rows[|rows| - 1], "nombre") == "" then 1 else 0
  }

  /** Every record is inserted, skipped or dropped for lacking a name. */
  lemma {:induction false} RunCount(mapping: Mapping, existing: seq<LeadRow>, rows: seq<Csv.Record<string>>)
    ensures |Run(mapping, existing, rows).accepted| + Run(mapping, existing, rows).skipped + Nameless(mapping, rows) == |rows|
    decreases |rows|
  {
    if rows != [] {
      RunCount(mapping, existing, rows[..|rows| - 1]);
    }
  }

  /** The accepted records are named records of the input. */
  lemma {:induction false} RunAccepted(mapping: Mapping, existing: seq<LeadRow>, rows: seq<Csv.Record<string>>)
    ensures forall i :: 0 <= i < |Run(mapping, existing, rows).accepted| ==>
      Run(mapping, existing, rows).accepted[i] in rows && GetValue(mapping, Run(mapping, existing, rows).accepted[i], "nombre") != ""
    decreases |rows|
  {
    if rows != [] {
      var n := |rows| - 1;
      var before := Run(mapping, existing, rows[..n]);
      RunAccepted(mapping, existing, rows[..n]);
      VisitAccepted(mapping, before, rows[n]);
      var acc := Run(mapping, existing, rows).accepted;
      forall i | 0 <= i < |acc| ensures acc[i] in rows && GetValue(mapping, acc[i], "nombre") != "" {
        if i < |before.accepted| {
          assert acc[i] == before.accepted[i];
          assert acc[i] in rows[..n];
        }
      }
    }
  }

  /** One callback accepts nothing, or the record itself when it is named. */
  lemma VisitAccepted(mapping: Mapping, before: Tally, row: Csv.Record<string>)
    ensures Visit(mapping, before, row).accepted == before.accepted ||
      (Visit(mapping, before, row).accepted == before.accepted + [row] && GetValue(mapping, row, "nombre") != "")
  {
  }

  /** Accepting one more record adds its non-empty key to the known ones. */
  lemma KnownAppend(base: Seen, accepted: seq<RowKeys>, k: RowKeys, t: D.KeyType)
    ensures Known(base, accepted + [k], t) == Known(base, accepted, t) + (if k.Of(t) != "" then {k.Of(t)} else {})
  {
    assert forall x :: x in accepted + [k] <==> x in accepted || x == k;
  }

  /** One callback keeps the running sets equal to the known keys. */
  lemma VisitKnows(mapping: Mapping, base: Seen, before: Tally, row: Csv.Record<string>, t: D.KeyType)
    requires before.seen.Of(t) == Known(base, KeysList(mapping, before.accepted), t)
    ensures Visit(mapping, before, row).seen.Of(t) == Known(base, KeysList(mapping, Visit(mapping, before, row).accepted), t)
  {
    var k := KeysOf(mapping, row);
    if GetValue(mapping, row, "nombre") != "" && !Duplicated(k, before.seen) {
      RegisterOf(before.seen, k, t);
      KeysListStep(mapping, before.accepted, row);
      KnownAppend(base, KeysList(mapping, before.accepted), k, t);
    }
  }

  /** The running sets hold exactly the known keys: the existing leads' and
      those of the records accepted so far. */
  lemma {:induction false} RunKnows(mapping: Mapping, existing: seq<LeadRow>, rows: seq<Csv.Record<string>>, t: D.KeyType)
    ensures Run(mapping, existing, rows).seen.Of(t) == Known(Existing(existing), KeysList(mapping, Run(mapping, existing, rows).accepted), t)
    decreases |rows|
  {
    if rows != [] {
      var n := |rows| - 1;
      RunKnows(mapping, existing, rows[..n], t);
      VisitKnows(mapping, Existing(existing), Run(mapping, existing, rows[..n]), rows[n], t);
    } else {
      assert Run(mapping, existing, rows).accepted == [];
    }
  }

  /** One callback on a named record skips it exactly when one of its
      non-empty keys is known. */
  lemma VisitSkips(mapping: Mapping, base: Seen, before: Tally, row: Csv.Record<string>)
    requires forall t: D.KeyType :: before.seen.Of(t) == Known(base, KeysList(mapping, before.accepted), t)
    requires GetValue(mapping, row, "nombre") != ""
    ensures Visit(mapping, before, row).skipped == before.skipped + 1 <==>
      exists t: D.KeyType :: KeysOf(mapping, row).Of(t) != "" && KeysOf(mapping, row).Of(t) in Known(base, KeysList(mapping, before.accepted), t)
  {
    DuplicatedMeans(KeysOf(mapping, row), before.seen);
  }

  /** A named record is skipped exactly when one of its non-empty keys is
      already known; a nameless one changes nothing. */
  lemma SkipMeans(mapping: Mapping, existing: seq<LeadRow>, rows: seq<Csv.Record<string>>, n: nat)
    requires n < |rows|
    ensures GetValue(mapping, rows[n], "nombre") == "" ==>
      Run(mapping, existing, rows[..n + 1]) == Run(mapping, existing, rows[..n])
    ensures GetValue(mapping, rows[n], "nombre") != "" ==>
      (Run(mapping, existing, rows[..n + 1]).skipped == Run(mapping, existing, rows[..n]).skipped + 1 <==>
        exists t: D.KeyType :: KeysOf(mapping, rows[n]).Of(t) != "" &&
          KeysOf(mapping, rows[n]).Of(t) in Known(Existing(existing), KeysList(mapping, Run(mapping, existing, rows[..n]).accepted), t))
  {
    assert rows[..n + 1][..n] == rows[..n];
    var before := Run(mapping, existing, rows[..n]);
    assert Run(mapping, existing, rows[..n + 1]) == Visit(mapping, before, rows[n]);
    if GetValue(mapping, rows[n], "nombre") != "" {
      forall t: D.KeyType ensures before.seen.Of(t) == Known(Existing(existing), KeysList(mapping, before.accepted), t) {
        RunKnows(mapping, existing, rows[..n], t);
      }
      VisitSkips(mapping, Existing(existing), before, rows[n]);
    }
  }

  /** The `i`-th of the key tuples `ks` has, for key kind `t`, no non-empty
      key already known from `base` or from the tuples before it. */
  predicate FreshAt(base: Seen, ks: seq<RowKeys>, i: nat, t: D.KeyType)
    requires i < |ks|
  {
    ks[i].Of(t) == "" || ks[i].Of(t) !in Known(base, ks[..i], t)
  }

  /** One callback keeps every accepted record fresh. */
  lemma VisitFresh(mapping: Mapping, base: Seen, before: Tally, row: Csv.Record<string>, i: nat, t: D.KeyType)
    requires before.seen.Of(t) == Known(base, KeysList(mapping, before.accepted), t)
    requires i < |Visit(mapping, before, row).accepted|
    requires i < |before.accepted| ==> FreshAt(base, KeysList(mapping, before.accepted), i, t)
    ensures FreshAt(base, KeysList(mapping, Visit(mapping, before, row).accepted), i, t)
  {
    var k := KeysOf(mapping, row);
    if GetValue(mapping, row, "nombre") != "" && !Duplicated(k, before.seen) {
      KeysListStep(mapping, before.accepted, row);
      DuplicatedMeans(k, before.seen);
      FreshAppend(base, KeysList(mapping, before.accepted), k, i, t);
    }
  }

  /** Appending a key tuple keeps the earlier ones fresh, and the new one is
      fresh when none of its keys is known yet. */
  lemma FreshAppend(base: Seen, ks: seq<RowKeys>, k: RowKeys, i: nat, t: D.KeyType)
    requires i <= |ks|
    requires i < |ks| ==> FreshAt(base, ks, i, t)
    requires i == |ks| ==> k.Of(t) == "" || k.Of(t) !in Known(base, ks, t)
    ensures FreshAt(base, ks + [k], i, t)
  {
    if i < |ks| {
      assert (ks + [k])[..i] == ks[..i];
    } else {
      assert (ks + [k])[..i] == ks;
    }
  }

  /** Each accepted record clashes on no key with the keys known before it. */
  lemma {:induction false} AcceptedFresh(mapping: Mapping, existing: seq<LeadRow>, rows: seq<Csv.Record<string>>, i: nat, t: D.KeyType)
    requires i < |Run(mapping, existing, rows).accepted|
    ensures FreshAt(Existing(existing), KeysList(mapping, Run(mapping, existing, rows).accepted), i, t)
    decreases |rows|
  {
    var n := |rows| - 1;
    var before := Run(mapping, existing, rows[..n]);
    RunKnows(mapping, existing, rows[..n], t);
    if i < |before.accepted| {
      AcceptedFresh(mapping, existing, rows[..n], i, t);
    }
    VisitFresh(mapping, Existing(existing), before, rows[n], i, t);
  }

  /** No two accepted records share a non-empty key of the same kind. */
  lemma AcceptedDisjoint(mapping: Mapping, existing: seq<LeadRow>, rows: seq<Csv.Record<string>>, i: nat, j: nat, t: D.KeyType)
    requires i < j < |Run(mapping, existing, rows).accepted|
    ensures KeysOf(mapping, Run(mapping, existing, rows).accepted[j]).Of(t) == "" ||
      KeysOf(mapping, Run(mapping, existing, rows).accepted[j]).Of(t) != KeysOf(mapping, Run(mapping, existing, rows).accepted[i]).Of(t)
  {
    var ks := KeysList(mapping, Run(mapping, existing, rows).accepted);
    AcceptedFresh(mapping, existing, rows, j, t);
    assert ks[..j][i] == ks[i];
  }

  /** No accepted record shares a non-empty key with an existing lead,
      except the name key `"|"`, which the existing set leaves out. */
  lemma AcceptedAvoidExisting(mapping: Mapping, existing: seq<LeadRow>, rows: seq<Csv.Record<string>>, i: nat, t: D.KeyType)
    requires i < |Run(mapping, existing, rows).accepted|
    ensures forall l :: (l in existing && LeadKeysOf(l).Of(t) != "" && (t == D.NombreEmpresa ==> LeadKeysOf(l).name != "|")) ==>
      KeysOf(mapping, Run(mapping, existing, rows).accepted[i]).Of(t) != LeadKeysOf(l).Of(t)
  {
    AcceptedFresh(mapping, existing, rows, i, t);
    forall l | l in existing && LeadKeysOf(l).Of(t) != "" && (t == D.NombreEmpresa ==> LeadKeysOf(l).name != "|")
      ensures LeadKeysOf(l).Of(t) in Existing(existing).Of(t)
    {
      match t
      case Telefono =>
      case WhatsApp =>
      case Instagram =>
      case Web =>
      case NombreEmpresa =>
    }
  }

  /** The inserted leads are named, carry the fresh ids in order, and no two
      of them share a non-empty key of the same kind. */
  lemma ImportedLeads(ctx: Context, existing: seq<LeadRow>, rows: seq<Csv.Record<string>>, i: nat, j: nat, t: D.KeyType)
    requires i < j < |Run(ctx.mapping, existing, rows).accepted|
    ensures Leads(ctx, Run(ctx.mapping, existing, rows).accepted)[i].nombre != ""
    ensures Leads(ctx, Run(ctx.mapping, existing, rows).accepted)[i].id == ctx.freshId(i)
    ensures LeadKeysOf(Leads(ctx, Run(ctx.mapping, existing, rows).accepted)[j]).Of(t) == "" ||
      LeadKeysOf(Leads(ctx, Run(ctx.mapping, existing, rows).accepted)[j]).Of(t) !=
        LeadKeysOf(Leads(ctx, Run(ctx.mapping, existing, rows).accepted)[i]).Of(t)
  {
    var acc := Run(ctx.mapping, existing, rows).accepted;
    RunAccepted(ctx.mapping, existing, rows);
    NewLeadShape(ctx, acc[i], i);
    NewLeadShape(ctx, acc[j], j);
    AcceptedDisjoint(ctx.mapping, existing, rows, i, j, t);
  }

  // ---------------------------------------------------------------------
  // The endpoint
  // ---------------------------------------------------------------------

  datatype ImportError =
    | CsvRequired  // 400 "CSV requerido"
    | CsvEmpty     // 400 "CSV sin datos"
    | NoValidRows  // 400 "No se encontro ningun lead valido"

  /** `{ ok: true, count, skipped }`. */
  datatype Summary = Summary(count: nat, skipped: nat)

  /** The `rows.map(...).filter(Boolean)` pass: the leads to insert and the
      number of records skipped as duplicates. */
  method ReadRecords(ctx: Context, existing: seq<LeadRow>, rows: seq<Csv.Record<string>>)
    returns (leads: seq<LeadRow>, skipped: nat)
    ensures leads == Leads(ctx, Run(ctx.mapping, existing, rows).accepted)
    ensures skipped == Run(ctx.mapping, existing, rows).skipped
  {
    var seen := Existing(existing);
    skipped := 0;
    leads := [];
    ghost var accepted: seq<Csv.Record<string>> := [];
    for i := 0 to |rows|
      invariant Tally(seen, accepted, skipped) == Run(ctx.mapping, existing, rows[..i])
      invariant leads == Leads(ctx, accepted)
    {
      var row := rows[i];
      var nombre := GetValue(ctx.mapping, row, "nombre");
      if nombre != "" {
        var keys := KeysOf(ctx.mapping, row);
        if Duplicated(keys, seen) {
          skipped := skipped + 1;
        } else {
          seen := AddKeys(seen, keys);
          LeadsStep(ctx, accepted, row);
          leads := leads + [NewLead(ctx, row, |leads|)];
          accepted := accepted + [row];
        }
      }
      assert rows[..i + 1][..i] == rows[..i];
    }
    assert rows[..|rows|] == rows;
  }

  /** `POST /api/leads/import`.  `csv` is `None` when the body has no text. */
  method ImportLeads(db: Db, csv: Option<string>, ctx: Context) returns (r: Result<Summary, ImportError>)
    modifies db
    ensures csv.None? || csv.value == "" ==> r == Err(CsvRequired) && unchanged(db)
    ensures csv.Some? && csv.value != "" && Csv.Parse(csv.value) == [] ==> r == Err(CsvEmpty) && unchanged(db)
    ensures (csv.Some? && csv.value != "" && Csv.Parse(csv.value) != [] &&
      Run(ctx.mapping, old(db.leads), Csv.Parse(csv.value)).accepted == []) ==>
      r == Err(NoValidRows) && unchanged(db)
    ensures (csv.Some? && csv.value != "" && Csv.Parse(csv.value) != [] &&
      Run(ctx.mapping, old(db.leads), Csv.Parse(csv.value)).accepted != []) ==>
      var t := Run(ctx.mapping, old(db.leads), Csv.Parse(csv.value));
      r == Ok(Summary(|t.accepted|, t.skipped)) &&
      db.State() == old(db.State()).(leads := old(db.leads) + Leads(ctx, t.accepted))
  {
    if csv.None? || csv.value == "" {
      return Err(CsvRequired);
    }
    var rows := Csv.ParseCsv(csv.value);
    if |rows| == 0 {
      return Err(CsvEmpty);
    }
    var leads, skipped := ReadRecords(ctx, db.leads, rows);
    if |leads| == 0 {
      return Err(NoValidRows);
    }
    db.CreateLeads(leads);
    return Ok(Summary(|leads|, skipped));
  }
}
