/**
 * The change history of a lead (src/lib/changes.ts): `Diff` compares two
 * snapshots field by field over the fifteen tracked fields and yields one
 * entry per field whose shown value differs.  The stage is compared by id
 * and shown by name, the tags are compared and shown as their sorted names
 * joined by ", ", and every other field is compared as text under a label
 * derived from its camel-case name.
 */
module Changes {
  import opened Wrappers
  import opened Text
  import opened Ordering
  import opened Domain

  /** A property of a JavaScript object that may be missing (`undefined`),
      `null`, or hold a value. */
  datatype Slot<T> = Undefined | Null | Value(v: T)

  /** `value == null ? "" : String(value)`. */
  function SlotText(s: Slot<string>): string {
    match s
    case Value(v) => v
    case _ => ""
  }

  datatype Stage = Stage(id: string, nombre: string)

  datatype Tag = Tag(id: string, nombre: string)

  /** `LeadSnapshot`: what the history compares. */
  datatype Snapshot = Snapshot(
    nombre: string,
    empresa: Slot<string>,
    rubro: Slot<string>,
    ciudad: Slot<string>,
    telefono: Slot<string>,
    whatsapp: Slot<string>,
    instagram: Slot<string>,
    web: Slot<string>,
    prioridad: string,
    fuente: Slot<string>,
    nota: Slot<string>,
    ultimoContacto: Slot<string>,
    proximoSeguimiento: Slot<string>,
    stage: Slot<Stage>,
    tags: Slot<seq<Tag>>)

  /** The tracked fields. */
  datatype Field =
    | Nombre | Empresa | Rubro | Ciudad | Telefono | Whatsapp | Instagram | Web
    | Prioridad | Fuente | Nota | UltimoContacto | ProximoSeguimiento
    | StageField | TagsField
  {
    predicate IsScalar() {
      this != StageField && this != TagsField
    }
  }

  /** `TRACK_FIELDS`, in its order. */
  const TrackFields: seq<Field> := [
    Nombre, Empresa, Rubro, Ciudad, Telefono, Whatsapp, Instagram, Web,
    Prioridad, Fuente, Nota, UltimoContacto, ProximoSeguimiento, StageField, TagsField]

  /** The property name of a field. */
  function Key(f: Field): string {
    match f
    case Nombre => "nombre"
    case Empresa => "empresa"
    case Rubro => "rubro"
    case Ciudad => "ciudad"
    case Telefono => "telefono"
    case Whatsapp => "whatsapp"
    case Instagram => "instagram"
    case Web => "web"
    case Prioridad => "prioridad"
    case Fuente => "fuente"
    case Nota => "nota"
    case UltimoContacto => "ultimoContacto"
    case ProximoSeguimiento => "proximoSeguimiento"
    case StageField => "stage"
    case TagsField => "tags"
  }

  /** The text of a scalar field: `null` and `undefined` read as `""`. */
  function ScalarText(s: Snapshot, f: Field): string
    requires f.IsScalar()
  {
    match f
    case Nombre => s.nombre
    case Empresa => SlotText(s.empresa)
    case Rubro => SlotText(s.rubro)
    case Ciudad => SlotText(s.ciudad)
    case Telefono => SlotText(s.telefono)
    case Whatsapp => SlotText(s.whatsapp)
    case Instagram => SlotText(s.instagram)
    case Web => SlotText(s.web)
    case Prioridad => s.prioridad
    case Fuente => SlotText(s.fuente)
    case Nota => SlotText(s.nota)
    case UltimoContacto => SlotText(s.ultimoContacto)
    case ProximoSeguimiento => SlotText(s.proximoSeguimiento)
  }

  /** `stage?.id ?? ""`. */
  function StageId(s: Slot<Stage>): string {
    match s
    case Value(st) => st.id
    case _ => ""
  }

  /** `stage?.nombre ?? ""`. */
  function StageName(s: Slot<Stage>): string {
    match s
    case Value(st) => st.nombre
    case _ => ""
  }

  /** `(tags ?? []).map((tag) => tag.nombre)`. */
  function TagNameList(s: Slot<seq<Tag>>): (r: seq<string>)
    ensures s.Value? ==> |r| == |s.v| && forall i :: 0 <= i < |r| ==> r[i] == s.v[i].nombre
    ensures !s.Value? ==> r == []
  {
    match s
    case Value(tags) => seq(|tags|, i requires 0 <= i < |tags| => tags[i].nombre)
    case _ => []
  }

  /** The tag names sorted and joined with ", ". */
  function TagNames(s: Slot<seq<Tag>>): string {
    Join(", ", Sort(TagNameList(s)))
  }

  /** `.replace(/([A-Z])/g, " $1")`: a space before every upper-case letter. */
  function SpaceBeforeUpper(s: string): string {
    if s == [] then []
    else (if IsUpper(s[0]) then [' ', s[0]] else [s[0]]) + SpaceBeforeUpper(s[1..])
  }

  /** The characters the regular expression `.` does not match. */
  predicate IsLineTerminator(c: char) {
    c == '\n' || c == '\r' || c == '\U{2028}' || c == '\U{2029}'
  }

  /** The label of a scalar field: a space before every upper-case letter,
      then `.replace(/^./, (char) => char.toUpperCase())`. */
  function Label(name: string): string {
    var spaced := SpaceBeforeUpper(name);
    if spaced != [] && !IsLineTerminator(spaced[0]) then [UpperChar(spaced[0])] + spaced[1..] else spaced
  }

  /** The `campo` of a field's entry. */
  function Campo(f: Field): string {
    if f == StageField then "Etapa"
    else if f == TagsField then "Etiquetas"
    else Label(Key(f))
  }

  /** Whether the field differs between the snapshots: the stage by id (a
      missing stage reads as id `""`), the tags by their sorted joined
      names, every other field by its text. */
  predicate Changed(f: Field, before: Snapshot, after: Snapshot) {
    if f == StageField then StageId(before.stage) != StageId(after.stage)
    else if f == TagsField then TagNames(before.tags) != TagNames(after.tags)
    else ScalarText(before, f) != ScalarText(after, f)
  }

  /** What an entry shows for the field: the stage name, the joined tag
      names, or the field's text. */
  function Shown(f: Field, s: Snapshot): string {
    if f == StageField then StageName(s.stage)
    else if f == TagsField then TagNames(s.tags)
    else ScalarText(s, f)
  }

  /** An entry of the history: `{ campo, valorAntes, valorDespues }`. */
  datatype Change = Change(campo: string, valorAntes: string, valorDespues: string)

  /** The `flatMap` callback: no entry, or one. */
  function EntryFor(f: Field, before: Snapshot, after: Snapshot): seq<Change> {
    if Changed(f, before, after) then [Change(Campo(f), Shown(f, before), Shown(f, after))] else []
  }

  /** `fields.flatMap(callback)`. */
  function DiffOver(fields: seq<Field>, before: Snapshot, after: Snapshot): seq<Change>
    decreases |fields|
  {
    if fields == [] then []
    else DiffOver(fields[..|fields| - 1], before, after) + EntryFor(fields[|fields| - 1], before, after)
  }

  /** `diffLeadChanges(before, after)`. */
  function Diff(before: Snapshot, after: Snapshot): seq<Change> {
    DiffOver(TrackFields, before, after)
  }

  // ---------------------------------------------------------------------
  // Properties
  // ---------------------------------------------------------------------

  /** Spacing works piece by piece. */
  lemma {:induction false} SpaceConcat(a: string, b: string)
    ensures SpaceBeforeUpper(a + b) == SpaceBeforeUpper(a) + SpaceBeforeUpper(b)
    decreases |a|
  {
    if a == [] {
      assert a + b == b;
    } else {
      assert (a + b)[1..] == a[1..] + b;
      SpaceConcat(a[1..], b);
    }
  }

  /** A word without upper-case letters is left as it is. */
  lemma {:induction false} SpaceLower(s: string)
    requires forall i :: 0 <= i < |s| ==> !IsUpper(s[i])
    ensures SpaceBeforeUpper(s) == s
    decreases |s|
  {
    if s != [] {
      SpaceLower(s[1..]);
    }
  }

  /** The label of a lower-case word is the word capitalised. */
  lemma WordLabel(w: string)
    requires w != [] && 'a' <= w[0] <= 'z'
    requires forall i :: 0 <= i < |w| ==> !IsUpper(w[i])
    ensures Label(w) == [UpperChar(w[0])] + w[1..]
  {
    SpaceLower(w);
  }

  /** The label of `first` + `Second` is "First Second". */
  lemma TwoWordLabel(first: string, second: string)
    requires first != [] && 'a' <= first[0] <= 'z'
    requires forall i :: 0 <= i < |first| ==> !IsUpper(first[i])
    requires second != [] && IsUpper(second[0])
    requires forall i :: 1 <= i < |second| ==> !IsUpper(second[i])
    ensures Label(first + second) == [UpperChar(first[0])] + first[1..] + " " + second
  {
    SpaceLower(first);
    SpaceLower(second[1..]);
    SpaceConcat(first, second);
    assert SpaceBeforeUpper(second) == [' ', second[0]] + second[1..];
    assert SpaceBeforeUpper(first + second) == first + " " + second;
  }

  /** The fields of `fields` that differ between the snapshots, as indices
      in increasing order (exactly the changed ones: `PickedChanged` and
      `ChangedPicked`). */
  function Picked(fields: seq<Field>, before: Snapshot, after: Snapshot): (p: seq<nat>)
    ensures forall k :: 0 <= k < |p| ==> p[k] < |fields|
    ensures forall k, m :: 0 <= k < m < |p| ==> p[k] < p[m]
    decreases |fields|
  {
    if fields == [] then []
    else
      var n := |fields| - 1;
      Picked(fields[..n], before, after) + (if Changed(fields[n], before, after) then [n] else [])
  }

  /** Every picked index is that of a changed field. */
  lemma {:induction false} PickedChanged(fields: seq<Field>, before: Snapshot, after: Snapshot)
    ensures forall k :: 0 <= k < |Picked(fields, before, after)| ==> Changed(fields[Picked(fields, before, after)[k]], before, after)
    decreases |fields|
  {
    if fields != [] {
      var n := |fields| - 1;
      var front := fields[..n];
      PickedChanged(front, before, after);
      var p := Picked(front, before, after);
      var all := Picked(fields, before, after);
      assert all == p + (if Changed(fields[n], before, after) then [n] else []);
      forall k | 0 <= k < |all| ensures Changed(fields[all[k]], before, after) {
        if k < |p| {
          assert all[k] == p[k] && front[p[k]] == fields[p[k]];
        }
      }
    }
  }

  /** Every changed field is picked. */
  lemma {:induction false} ChangedPicked(fields: seq<Field>, before: Snapshot, after: Snapshot)
    ensures forall j :: 0 <= j < |fields| && Changed(fields[j], before, after) ==> j in Picked(fields, before, after)
    decreases |fields|
  {
    if fields != [] {
      var n := |fields| - 1;
      var front := fields[..n];
      ChangedPicked(front, before, after);
      var p := Picked(front, before, after);
      var all := Picked(fields, before, after);
      assert all == p + (if Changed(fields[n], before, after) then [n] else []);
      forall j | 0 <= j < |fields| && Changed(fields[j], before, after) ensures j in all {
        if j < n {
          assert front[j] == fields[j];
        }
      }
    }
  }

  /** The history holds one entry per changed field, in the order of
      `fields` (for `diffLeadChanges`, the order of `TRACK_FIELDS`): its
      label and its shown value before and after.  Except for the stage,
      whose name may coincide, the two values differ. */
  lemma {:induction false} DiffOverIndexed(fields: seq<Field>, before: Snapshot, after: Snapshot)
    ensures |DiffOver(fields, before, after)| == |Picked(fields, before, after)|
    ensures forall k :: 0 <= k < |DiffOver(fields, before, after)| ==>
      var f := fields[Picked(fields, before, after)[k]];
      DiffOver(fields, before, after)[k] == Change(Campo(f), Shown(f, before), Shown(f, after))
    ensures forall k :: 0 <= k < |DiffOver(fields, before, after)| ==>
      fields[Picked(fields, before, after)[k]] != StageField ==>
      DiffOver(fields, before, after)[k].valorAntes != DiffOver(fields, before, after)[k].valorDespues
    decreases |fields|
  {
    if fields != [] {
      var n := |fields| - 1;
      DiffOverIndexed(fields[..n], before, after);
      PickedChanged(fields, before, after);
      var p := Picked(fields[..n], before, after);
      assert forall k :: 0 <= k < |p| ==> fields[..n][p[k]] == fields[p[k]];
    }
  }

  /** There are at most as many entries as fields, and none exactly when no
      field changed. */
  lemma {:induction false} DiffOverEmpty(fields: seq<Field>, before: Snapshot, after: Snapshot)
    ensures |DiffOver(fields, before, after)| <= |fields|
    ensures DiffOver(fields, before, after) == [] <==>
      forall j :: 0 <= j < |fields| ==> !Changed(fields[j], before, after)
    decreases |fields|
  {
    if fields != [] {
      var n := |fields| - 1;
      var front := fields[..n];
      DiffOverEmpty(front, before, after);
      EntryLength(fields[n], before, after);
      var d, e := DiffOver(front, before, after), EntryFor(fields[n], before, after);
      assert DiffOver(fields, before, after) == d + e;
      if d + e == [] {
        forall j | 0 <= j < |fields| ensures !Changed(fields[j], before, after) {
          if j < n {
            assert front[j] == fields[j];
          }
        }
      } else if d != [] {
        var j :| 0 <= j < n && Changed(front[j], before, after);
        assert front[j] == fields[j];
      }
    }
  }

  /** The callback gives no entry exactly for an unchanged field, and at
      most one entry. */
  lemma EntryLength(f: Field, before: Snapshot, after: Snapshot)
    ensures |EntryFor(f, before, after)| <= 1
    ensures EntryFor(f, before, after) == [] <==> !Changed(f, before, after)
  {
  }

  /** A snapshot compared with itself records nothing. */
  lemma {:induction false} DiffOverSelf(fields: seq<Field>, s: Snapshot)
    ensures DiffOver(fields, s, s) == []
    decreases |fields|
  {
    if fields != [] {
      DiffOverSelf(fields[..|fields| - 1], s);
    }
  }

  /** Comparing the other way round records the same fields with the values
      swapped. */
  lemma {:induction false} DiffOverSwap(fields: seq<Field>, before: Snapshot, after: Snapshot)
    ensures |DiffOver(fields, after, before)| == |DiffOver(fields, before, after)|
    ensures forall k :: 0 <= k < |DiffOver(fields, before, after)| ==>
      var e := DiffOver(fields, before, after)[k];
      DiffOver(fields, after, before)[k] == Change(e.campo, e.valorDespues, e.valorAntes)
    decreases |fields|
  {
    if fields != [] {
      DiffOverSwap(fields[..|fields| - 1], before, after);
    }
  }

  /** Snapshot pairs on which every field yields the same entry have the
      same history. */
  lemma {:induction false} DiffOverAgree(fields: seq<Field>, b1: Snapshot, a1: Snapshot, b2: Snapshot, a2: Snapshot)
    requires forall j :: 0 <= j < |fields| ==> EntryFor(fields[j], b1, a1) == EntryFor(fields[j], b2, a2)
    ensures DiffOver(fields, b1, a1) == DiffOver(fields, b2, a2)
    decreases |fields|
  {
    if fields != [] {
      var n := |fields| - 1;
      assert forall j :: 0 <= j < n ==> fields[..n][j] == fields[j];
      DiffOverAgree(fields[..n], b1, a1, b2, a2);
    }
  }

  /** Tags compare by their names as a multiset: reordering the tags, or
      replacing them by others with the same names, records nothing. */
  lemma TagsIgnoreOrder(before: Snapshot, after: Snapshot)
    requires multiset(TagNameList(before.tags)) == multiset(TagNameList(after.tags))
    ensures !Changed(TagsField, before, after)
  {
    SortIgnoresOrder(TagNameList(before.tags), TagNameList(after.tags));
  }

  /** `diffLeadChanges` on a snapshot and itself records nothing. */
  lemma DiffSelf(s: Snapshot)
    ensures Diff(s, s) == []
  {
    DiffOverSelf(TrackFields, s);
  }

  // ---------------------------------------------------------------------
  // Snapshots of a lead
  // ---------------------------------------------------------------------

  /** The fields of a `Lead` that the history looks at. */
  datatype Lead = Lead(
    id: string,
    nombre: string,
    empresa: Slot<string>,
    rubro: Slot<string>,
    ciudad: Slot<string>,
    telefono: Slot<string>,
    whatsapp: Slot<string>,
    instagram: Slot<string>,
    web: Slot<string>,
    stage: Slot<Stage>,
    tags: Slot<seq<Tag>>,
    prioridad: Priority,
    fuente: Slot<string>,
    nota: Slot<string>,
    ultimoContacto: Slot<string>,
    proximoSeguimiento: Slot<string>)

  /** `value ?? null`. */
  function OrNull<T>(x: Slot<T>): (r: Slot<T>)
    ensures !r.Undefined?
    ensures x.Value? ==> r == x
  {
    if x.Undefined? then Null else x
  }

  /** No optional field is missing, and the tags are a list. */
  predicate Settled(s: Snapshot) {
    && !s.empresa.Undefined? && !s.rubro.Undefined? && !s.ciudad.Undefined?
    && !s.telefono.Undefined? && !s.whatsapp.Undefined? && !s.instagram.Undefined?
    && !s.web.Undefined? && !s.fuente.Undefined? && !s.nota.Undefined?
    && !s.ultimoContacto.Undefined? && !s.proximoSeguimiento.Undefined?
    && !s.stage.Undefined? && s.tags.Value?
  }

  /** `buildLeadSnapshot(lead)`: the tracked fields, with missing values made
      `null` and missing tags made `[]`. */
  function BuildLeadSnapshot(l: Lead): (s: Snapshot)
    ensures Settled(s)
    ensures s.nombre == l.nombre && s.prioridad == l.prioridad.Name()
    ensures l.tags.Value? ==> s.tags == l.tags
  {
    Snapshot(
      l.nombre, OrNull(l.empresa), OrNull(l.rubro), OrNull(l.ciudad), OrNull(l.telefono),
      OrNull(l.whatsapp), OrNull(l.instagram), OrNull(l.web), l.prioridad.Name(),
      OrNull(l.fuente), OrNull(l.nota), OrNull(l.ultimoContacto), OrNull(l.proximoSeguimiento),
      OrNull(l.stage), if l.tags.Value? then l.tags else Value([]))
  }

  /** The lead read directly as a snapshot, missing values left missing. */
  function AsSnapshot(l: Lead): Snapshot {
    Snapshot(
      l.nombre, l.empresa, l.rubro, l.ciudad, l.telefono, l.whatsapp, l.instagram, l.web,
      l.prioridad.Name(), l.fuente, l.nota, l.ultimoContacto, l.proximoSeguimiento,
      l.stage, l.tags)
  }

  /** Settling a lead's snapshot changes neither what a field shows nor the
      stage id it is compared by. */
  lemma BuildKeepsShown(f: Field, x: Lead)
    ensures Shown(f, BuildLeadSnapshot(x)) == Shown(f, AsSnapshot(x))
    ensures StageId(BuildLeadSnapshot(x).stage) == StageId(AsSnapshot(x).stage)
  {
    assert TagNameList(BuildLeadSnapshot(x).tags) == TagNameList(AsSnapshot(x).tags);
  }

  /** Hence every field yields the entry it yields on the leads read
      directly. */
  lemma BuildKeepsEntries(f: Field, x: Lead, y: Lead)
    ensures EntryFor(f, BuildLeadSnapshot(x), BuildLeadSnapshot(y)) == EntryFor(f, AsSnapshot(x), AsSnapshot(y))
  {
    BuildKeepsShown(f, x);
    BuildKeepsShown(f, y);
    BuildKeepsShown(TagsField, x);
    BuildKeepsShown(TagsField, y);
    if f.IsScalar() {
      assert Shown(f, BuildLeadSnapshot(x)) == ScalarText(BuildLeadSnapshot(x), f);
      assert Shown(f, AsSnapshot(x)) == ScalarText(AsSnapshot(x), f);
      assert Shown(f, BuildLeadSnapshot(y)) == ScalarText(BuildLeadSnapshot(y), f);
      assert Shown(f, AsSnapshot(y)) == ScalarText(AsSnapshot(y), f);
    }
    assert Changed(f, BuildLeadSnapshot(x), BuildLeadSnapshot(y)) == Changed(f, AsSnapshot(x), AsSnapshot(y));
  }

  /** The history of two built snapshots is the history of the leads. */
  lemma BuildKeepsDiff(x: Lead, y: Lead)
    ensures Diff(BuildLeadSnapshot(x), BuildLeadSnapshot(y)) == Diff(AsSnapshot(x), AsSnapshot(y))
  {
    forall j | 0 <= j < |TrackFields|
      ensures EntryFor(TrackFields[j], BuildLeadSnapshot(x), BuildLeadSnapshot(y))
        == EntryFor(TrackFields[j], AsSnapshot(x), AsSnapshot(y))
    {
      BuildKeepsEntries(TrackFields[j], x, y);
    }
    DiffOverAgree(TrackFields, BuildLeadSnapshot(x), BuildLeadSnapshot(y), AsSnapshot(x), AsSnapshot(y));
  }

  /** The stage is compared by id alone: a stage that keeps its id records
      nothing even when renamed, and two stages with different ids record an
      `Etapa` entry even when they share a name. */
  lemma StageById(before: Snapshot, after: Snapshot)
    requires before.stage.Value? && after.stage.Value?
    ensures before.stage.v.id == after.stage.v.id ==> EntryFor(StageField, before, after) == []
    ensures before.stage.v.id != after.stage.v.id ==>
      EntryFor(StageField, before, after) == [Change("Etapa", before.stage.v.nombre, after.stage.v.nombre)]
  {
  }
}
