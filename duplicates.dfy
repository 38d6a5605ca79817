/**
 * The duplicate report (src/app/api/leads/duplicates/route.ts): the leads,
 * oldest first, are grouped under five normalised identity keys in turn;
 * each key type contributes, in the order its keys were first seen, one
 * group per non-empty key that two or more leads share.
 */
module Duplicates {
  import opened Wrappers
  import opened Text

  /** The columns the report selects from a lead. */
  datatype LeadKeys = LeadKeys(
    id: string,
    nombre: string,
    empresa: Option<string>,
    telefono: Option<string>,
    whatsapp: Option<string>,
    instagram: Option<string>,
    web: Option<string>,
    creadoEn: int)

  /** The five key types, in the order the report visits them. */
  datatype KeyType = Telefono | WhatsApp | Instagram | Web | NombreEmpresa {

    /** The `type` of a group of this kind. */
    function Name(): string {
      match this
      case Telefono => "Telefono"
      case WhatsApp => "WhatsApp"
      case Instagram => "Instagram"
      case Web => "Web"
      case NombreEmpresa => "Nombre + Empresa"
    }

    /** The position of the kind's block in the report. */
    function Order(): nat {
      match this
      case Telefono => 0
      case WhatsApp => 1
      case Instagram => 2
      case Web => 3
      case NombreEmpresa => 4
    }
  }

  /** `normalize(value)`: `(value ?? "").trim().toLowerCase()`. */
  function NormalizeOpt(v: Option<string>): string {
    Normalize(v.GetOr(""))
  }

  /** `.replace(/\|$/, "")`: one trailing bar removed. */
  function DropTrailingBar(s: string): (r: string)
    ensures r == s || (s == r + "|")
    ensures r != s <==> (|s| > 0 && s[|s| - 1] == '|')
  {
    if s != [] && s[|s| - 1] == '|' then s[..|s| - 1] else s
  }

  /** The key of the name-and-company type. */
  function NameKey(nombre: string, empresa: Option<string>): string {
    DropTrailingBar(Normalize(nombre) + "|" + NormalizeOpt(empresa))
  }

  /** `getKey(lead)` of each type. */
  function KeyOf(t: KeyType, l: LeadKeys): string {
    match t
    case Telefono => NormalizeOpt(l.telefono)
    case WhatsApp => NormalizeOpt(l.whatsapp)
    case Instagram => NormalizeOpt(l.instagram)
    case Web => NormalizeOpt(l.web)
    case NombreEmpresa => NameKey(l.nombre, l.empresa)
  }

  /** The key of type `t` of every lead, position by position. */
  function Keys(leads: seq<LeadKeys>, t: KeyType): seq<string> {
    seq(|leads|, i requires 0 <= i < |leads| => KeyOf(t, leads[i]))
  }

  /** An entry of the report: `{ type, value, leads }`. */
  datatype Group = Group(kind: KeyType, value: string, leads: seq<LeadKeys>)

  /** The positions holding `key`, in increasing order. */
  function Positions(ks: seq<string>, key: string): (p: seq<nat>)
    ensures forall k :: 0 <= k < |p| ==> p[k] < |ks| && ks[p[k]] == key
    ensures forall k, m :: 0 <= k < m < |p| ==> p[k] < p[m]
    decreases |ks|
  {
    if ks == [] then []
    else
      var n := |ks| - 1;
      var p := Positions(ks[..n], key);
      assert forall k :: 0 <= k < |p| ==> ks[..n][p[k]] == ks[p[k]];
      p + (if ks[n] == key then [n] else [])
  }

  /** Every position holding `key` is listed. */
  lemma {:induction false} PositionsHas(ks: seq<string>, key: string, j: nat)
    requires j < |ks| && ks[j] == key
    ensures j in Positions(ks, key)
    decreases |ks|
  {
    var n := |ks| - 1;
    if j < n {
      assert ks[..n][j] == ks[j];
      PositionsHas(ks[..n], key, j);
    }
  }

  /** The leads at the given positions. */
  function Pick(leads: seq<LeadKeys>, p: seq<nat>): (r: seq<LeadKeys>)
    requires forall k :: 0 <= k < |p| ==> p[k] < |leads|
  {
    seq(|p|, k requires 0 <= k < |p| => leads[p[k]])
  }

  /** The leads, in input order, whose key is `key`: the list the map holds
      for `key`. */
  function Members(leads: seq<LeadKeys>, ks: seq<string>, key: string): seq<LeadKeys>
    requires |ks| == |leads|
  {
    Pick(leads, Positions(ks, key))
  }

  /** The non-empty keys, without repetition, in the order they first
      occur: the key order of the map. */
  function FirstKeys(ks: seq<string>): (r: seq<string>)
    ensures forall i, j :: 0 <= i < j < |r| ==> r[i] != r[j]
    ensures forall i :: 0 <= i < |r| ==> r[i] != ""
    decreases |ks|
  {
    if ks == [] then []
    else
      var n := |ks| - 1;
      var r := FirstKeys(ks[..n]);
      if ks[n] == "" || ks[n] in r then r else r + [ks[n]]
  }

  /** Every non-empty key is among the first keys. */
  lemma {:induction false} FirstKeysHas(ks: seq<string>, j: nat)
    requires j < |ks| && ks[j] != ""
    ensures ks[j] in FirstKeys(ks)
    decreases |ks|
  {
    var n := |ks| - 1;
    if j < n {
      assert ks[..n][j] == ks[j];
      FirstKeysHas(ks[..n], j);
    }
  }

  /** One group per key of `keys` held by two or more leads, in the order of
      `keys`. */
  function Collect(leads: seq<LeadKeys>, ks: seq<string>, t: KeyType, keys: seq<string>): seq<Group>
    requires |ks| == |leads|
    decreases |keys|
  {
    if keys == [] then []
    else
      var n := |keys| - 1;
      var items := Members(leads, ks, keys[n]);
      Collect(leads, ks, t, keys[..n]) + (if |items| > 1 then [Group(t, keys[n], items)] else [])
  }

  /** What `groupBy(type, getKey)` pushes. */
  function Grouped(leads: seq<LeadKeys>, t: KeyType): seq<Group> {
    var ks := Keys(leads, t);
    Collect(leads, ks, t, FirstKeys(ks))
  }

  /** The report: the blocks of the five key types, in turn. */
  function Report(leads: seq<LeadKeys>): seq<Group> {
    Grouped(leads, Telefono) + Grouped(leads, WhatsApp) + Grouped(leads, Instagram)
    + Grouped(leads, Web) + Grouped(leads, NombreEmpresa)
  }

  // ---------------------------------------------------------------------
  // The endpoint
  // ---------------------------------------------------------------------

  /** `getKey` of a type, as the closure the handler passes. */
  function GetKey(t: KeyType): LeadKeys -> string {
    (l: LeadKeys) => KeyOf(t, l)
  }

  /** The key `getKey` gives every lead, position by position. */
  function KeysBy(leads: seq<LeadKeys>, getKey: LeadKeys -> string): (ks: seq<string>)
    ensures |ks| == |leads|
  {
    seq(|leads|, i requires 0 <= i < |leads| => getKey(leads[i]))
  }

  lemma KeysByType(leads: seq<LeadKeys>, t: KeyType)
    ensures KeysBy(leads, GetKey(t)) == Keys(leads, t)
  {
  }

  /** The first loop of `groupBy`: files each lead in a map under its key,
      remembering the order in which keys were first set. */
  method FileLeads(leads: seq<LeadKeys>, getKey: LeadKeys -> string) returns (keys: seq<string>, m: map<string, seq<LeadKeys>>)
    ensures keys == FirstKeys(KeysBy(leads, getKey)) && m == Filing(leads, KeysBy(leads, getKey), |leads|)
  {
    ghost var ks := KeysBy(leads, getKey);
    keys, m := [], map[];
    var i := 0;
    while i < |leads|
      invariant 0 <= i <= |leads|
      invariant keys == FirstKeys(ks[..i]) && m == Filing(leads, ks, i)
    {
      var key := getKey(leads[i]);
      assert key == ks[i];
      KeysStep(leads, ks, i);
      FilingStep(leads, ks, i);
      ghost var keys' := FirstKeys(ks[..i + 1]);
      if key != "" {
        if key !in m {
          keys := keys + [key];
        }
        m := m[key := (if key in m then m[key] else []) + [leads[i]]];
      }
      assert keys == keys';
      i := i + 1;
    }
    assert ks[..i] == ks;
  }

  /** `groupBy(type, getKey)`: files the leads, then pushes a group for each
      key, in key order, that holds two or more. */
  method GroupBy(leads: seq<LeadKeys>, t: KeyType) returns (found: seq<Group>)
    ensures found == Grouped(leads, t)
  {
    ghost var ks := Keys(leads, t);
    var keys, m := FileLeads(leads, GetKey(t));
    KeysByType(leads, t);
    FilingFiled(leads, ks, |leads|);
    assert ks[..|leads|] == ks;
    found := [];
    var j := 0;
    while j < |keys|
      invariant 0 <= j <= |keys|
      invariant found == Collect(leads, ks, t, keys[..j])
    {
      FiledMembers(leads, ks, keys, m, j);
      CollectStep(leads, ks, t, keys, j);
      var items := m[keys[j]];
      if |items| > 1 {
        found := found + [Group(t, keys[j], items)];
      }
      j := j + 1;
    }
    assert keys[..j] == keys;
  }

  /** The handler: the lead list, oldest first, grouped under each key type
      in turn. */
  method FindDuplicates(leads: seq<LeadKeys>) returns (groups: seq<Group>)
    ensures groups == Report(leads)
  {
    var telefono := GroupBy(leads, Telefono);
    var whatsapp := GroupBy(leads, WhatsApp);
    var instagram := GroupBy(leads, Instagram);
    var web := GroupBy(leads, Web);
    var nombre := GroupBy(leads, NombreEmpresa);
    groups := telefono + whatsapp + instagram + web + nombre;
  }

  // ---------------------------------------------------------------------
  // Properties
  // ---------------------------------------------------------------------

  /** The map after the first `i` leads: its keys in the order first set
      are the first keys, and each holds the leads filed under it. */
  predicate Filed(leads: seq<LeadKeys>, ks: seq<string>, i: nat, keys: seq<string>, m: map<string, seq<LeadKeys>>)
    requires |ks| == |leads| && i <= |leads|
  {
    && keys == FirstKeys(ks[..i])
    && (forall j :: 0 <= j < |keys| ==> keys[j] in m)
    && (forall k :: k in m ==> k in keys && m[k] == Pick(leads, Positions(ks[..i], k)))
  }

  /** The map after filing the first `i` leads under their keys. */
  function Filing(leads: seq<LeadKeys>, ks: seq<string>, i: nat): map<string, seq<LeadKeys>>
    requires |ks| == |leads| && i <= |leads|
    decreases i
  {
    if i == 0 then map[]
    else
      var m := Filing(leads, ks, i - 1);
      var key := ks[i - 1];
      if key == "" then m else m[key := (if key in m then m[key] else []) + [leads[i - 1]]]
  }

  /** Filing one more lead. */
  lemma FilingStep(leads: seq<LeadKeys>, ks: seq<string>, i: nat)
    requires |ks| == |leads| && i < |leads|
    ensures Filing(leads, ks, i + 1) ==
      var m := Filing(leads, ks, i);
      if ks[i] == "" then m else m[ks[i] := (if ks[i] in m then m[ks[i]] else []) + [leads[i]]]
  {
  }

  /** The filed map holds, under each first key, that key's members. */
  lemma {:induction false} FilingFiled(leads: seq<LeadKeys>, ks: seq<string>, i: nat)
    requires |ks| == |leads| && i <= |leads|
    ensures Filed(leads, ks, i, FirstKeys(ks[..i]), Filing(leads, ks, i))
    decreases i
  {
    if i == 0 {
      assert ks[..0] == [];
    } else {
      var n := i - 1;
      FilingFiled(leads, ks, n);
      var keys, m := FirstKeys(ks[..n]), Filing(leads, ks, n);
      if ks[n] == "" {
        FileSkip(leads, ks, n, keys, m);
      } else if ks[n] in m {
        FileAppend(leads, ks, n, keys, m);
      } else {
        FileFirst(leads, ks, n, keys, m);
      }
    }
  }

  /** The key order grows by a key exactly when the map first takes it. */
  lemma KeysStep(leads: seq<LeadKeys>, ks: seq<string>, i: nat)
    requires |ks| == |leads| && i < |leads|
    ensures FirstKeys(ks[..i + 1]) ==
      if ks[i] == "" || ks[i] in Filing(leads, ks, i) then FirstKeys(ks[..i]) else FirstKeys(ks[..i]) + [ks[i]]
  {
    FilingFiled(leads, ks, i);
    Extend(ks, i);
  }

  /** Once every lead is filed, the map holds each key's members. */
  lemma FiledMembers(leads: seq<LeadKeys>, ks: seq<string>, keys: seq<string>, m: map<string, seq<LeadKeys>>, j: nat)
    requires |ks| == |leads| && Filed(leads, ks, |leads|, keys, m) && j < |keys|
    ensures keys[j] in m && m[keys[j]] == Members(leads, ks, keys[j])
  {
    assert ks[..|leads|] == ks;
  }

  /** Collecting one more key. */
  lemma CollectStep(leads: seq<LeadKeys>, ks: seq<string>, t: KeyType, keys: seq<string>, j: nat)
    requires |ks| == |leads| && j < |keys|
    ensures Collect(leads, ks, t, keys[..j + 1]) == Collect(leads, ks, t, keys[..j]) +
      if |Members(leads, ks, keys[j])| > 1 then [Group(t, keys[j], Members(leads, ks, keys[j]))] else []
  {
    assert keys[..j + 1][..j] == keys[..j];
  }

  /** How the first keys and the positions grow by one more key. */
  lemma Extend(ks: seq<string>, i: nat)
    requires i < |ks|
    ensures FirstKeys(ks[..i + 1]) ==
      if ks[i] == "" || ks[i] in FirstKeys(ks[..i]) then FirstKeys(ks[..i]) else FirstKeys(ks[..i]) + [ks[i]]
    ensures forall k :: Positions(ks[..i + 1], k) == Positions(ks[..i], k) + (if ks[i] == k then [i] else [])
  {
    assert ks[..i + 1][..i] == ks[..i];
  }

  /** A lead with an empty key is not filed. */
  lemma FileSkip(leads: seq<LeadKeys>, ks: seq<string>, i: nat, keys: seq<string>, m: map<string, seq<LeadKeys>>)
    requires |ks| == |leads| && i < |leads| && Filed(leads, ks, i, keys, m) && ks[i] == ""
    ensures Filed(leads, ks, i + 1, keys, m)
  {
    Extend(ks, i);
  }

  /** A lead whose key is already in the map is appended to its list. */
  lemma FileAppend(leads: seq<LeadKeys>, ks: seq<string>, i: nat, keys: seq<string>, m: map<string, seq<LeadKeys>>)
    requires |ks| == |leads| && i < |leads| && Filed(leads, ks, i, keys, m) && ks[i] != "" && ks[i] in m
    ensures Filed(leads, ks, i + 1, keys, m[ks[i] := m[ks[i]] + [leads[i]]])
  {
    Extend(ks, i);
    PickSnoc(leads, Positions(ks[..i], ks[i]), i);
  }

  /** A lead with a new key starts a list, and the key joins the order. */
  lemma FileFirst(leads: seq<LeadKeys>, ks: seq<string>, i: nat, keys: seq<string>, m: map<string, seq<LeadKeys>>)
    requires |ks| == |leads| && i < |leads| && Filed(leads, ks, i, keys, m) && ks[i] != "" && ks[i] !in m
    ensures Filed(leads, ks, i + 1, keys + [ks[i]], m[ks[i] := [leads[i]]])
  {
    Extend(ks, i);
    NoPositions(ks[..i], ks[i]);
    PickSnoc(leads, [], i);
  }

  /** Appending a position appends the lead there. */
  lemma PickSnoc(leads: seq<LeadKeys>, p: seq<nat>, i: nat)
    requires i < |leads| && forall k :: 0 <= k < |p| ==> p[k] < |leads|
    ensures Pick(leads, p + [i]) == Pick(leads, p) + [leads[i]]
  {
    assert forall k :: 0 <= k < |p| ==> (p + [i])[k] == p[k];
  }

  /** A non-empty key not yet among the first keys occurs nowhere. */
  lemma NoPositions(ks: seq<string>, key: string)
    requires key != "" && key !in FirstKeys(ks)
    ensures Positions(ks, key) == []
  {
    var p := Positions(ks, key);
    if p != [] {
      FirstKeysHas(ks, p[0]);
    }
  }

  /** Leads in order of creation, oldest first. */
  predicate OldestFirst(leads: seq<LeadKeys>) {
    forall i, j :: 0 <= i < j < |leads| ==> leads[i].creadoEn <= leads[j].creadoEn
  }

  /** The members of a key are the leads with that key, all of them, in
      input order: from a list ordered oldest first, the members are ordered
      oldest first, so the first member is the oldest. */
  lemma MembersShape(leads: seq<LeadKeys>, t: KeyType, key: string)
    ensures forall k :: 0 <= k < |Members(leads, Keys(leads, t), key)| ==>
      KeyOf(t, Members(leads, Keys(leads, t), key)[k]) == key
    ensures forall j :: 0 <= j < |leads| && KeyOf(t, leads[j]) == key ==> leads[j] in Members(leads, Keys(leads, t), key)
    ensures OldestFirst(leads) ==> OldestFirst(Members(leads, Keys(leads, t), key))
  {
    var ks := Keys(leads, t);
    var p := Positions(ks, key);
    var r := Members(leads, ks, key);
    forall j | 0 <= j < |leads| && KeyOf(t, leads[j]) == key ensures leads[j] in r {
      assert ks[j] == key;
      PositionsHas(ks, key, j);
      var k :| 0 <= k < |p| && p[k] == j;
      assert r[k] == leads[j];
    }
    if OldestFirst(leads) {
      forall a, b | 0 <= a < b < |r| ensures r[a].creadoEn <= r[b].creadoEn {
        assert p[a] < p[b];
      }
    }
  }

  /** Every group of `Collect` is a group of type `t` under a key of
      `keys`, holding that key's members, at least two. */
  lemma {:induction false} CollectGroups(leads: seq<LeadKeys>, ks: seq<string>, t: KeyType, keys: seq<string>)
    requires |ks| == |leads|
    ensures forall k :: 0 <= k < |Collect(leads, ks, t, keys)| ==>
      var g := Collect(leads, ks, t, keys)[k];
      g.kind == t && g.value in keys && g.leads == Members(leads, ks, g.value) && |g.leads| >= 2
    decreases |keys|
  {
    if keys != [] {
      var n := |keys| - 1;
      CollectGroups(leads, ks, t, keys[..n]);
      var c := Collect(leads, ks, t, keys[..n]);
      var all := Collect(leads, ks, t, keys);
      forall k | 0 <= k < |all|
        ensures all[k].kind == t && all[k].value in keys
      {
        if k < |c| {
          assert all[k] == c[k];
          var i :| 0 <= i < n && keys[..n][i] == c[k].value;
          assert keys[i] == c[k].value;
        }
      }
    }
  }

  /** From distinct keys, `Collect` makes groups with distinct values. */
  lemma {:induction false} CollectDistinct(leads: seq<LeadKeys>, ks: seq<string>, t: KeyType, keys: seq<string>)
    requires |ks| == |leads|
    requires forall i, j :: 0 <= i < j < |keys| ==> keys[i] != keys[j]
    ensures forall k, m :: 0 <= k < m < |Collect(leads, ks, t, keys)| ==>
      Collect(leads, ks, t, keys)[k].value != Collect(leads, ks, t, keys)[m].value
    decreases |keys|
  {
    if keys != [] {
      var n := |keys| - 1;
      var front := keys[..n];
      CollectDistinct(leads, ks, t, front);
      CollectGroups(leads, ks, t, front);
      var c := Collect(leads, ks, t, front);
      forall k | 0 <= k < |c| ensures c[k].value != keys[n] {
        var i :| 0 <= i < |front| && front[i] == c[k].value;
      }
    }
  }

  /** Every key of `keys` with two or more members has a group. */
  lemma {:induction false} CollectComplete(leads: seq<LeadKeys>, ks: seq<string>, t: KeyType, keys: seq<string>, i: nat)
    requires |ks| == |leads|
    requires i < |keys| && |Members(leads, ks, keys[i])| >= 2
    ensures exists k :: 0 <= k < |Collect(leads, ks, t, keys)| && Collect(leads, ks, t, keys)[k].value == keys[i]
    decreases |keys|
  {
    var n := |keys| - 1;
    var c := Collect(leads, ks, t, keys[..n]);
    var all := Collect(leads, ks, t, keys);
    assert keys[..n + 1] == keys;
    CollectStep(leads, ks, t, keys, n);
    if i < n {
      assert keys[..n][i] == keys[i];
      CollectComplete(leads, ks, t, keys[..n], i);
      var k :| 0 <= k < |c| && c[k].value == keys[i];
      assert all[k] == c[k];
    } else {
      assert all[|c|].value == keys[i];
    }
  }

  /** Two leads with the same key make two members. */
  lemma TwoMembers(ks: seq<string>, j: nat, j': nat)
    requires j < j' < |ks| && ks[j] == ks[j']
    ensures |Positions(ks, ks[j])| >= 2
  {
    var p := Positions(ks, ks[j]);
    PositionsHas(ks, ks[j], j);
    PositionsHas(ks, ks[j], j');
    var a :| 0 <= a < |p| && p[a] == j;
    var b :| 0 <= b < |p| && p[b] == j';
    assert a != b;
  }

  /** What `groupBy` emits: groups of the given type with at least two
      members each, under non-empty values, each holding exactly the
      members of its value. */
  lemma GroupedShape(leads: seq<LeadKeys>, t: KeyType)
    ensures forall k :: 0 <= k < |Grouped(leads, t)| ==>
      var g := Grouped(leads, t)[k];
      && g.kind == t && g.value != "" && |g.leads| >= 2
      && g.leads == Members(leads, Keys(leads, t), g.value)
  {
    var ks := Keys(leads, t);
    var keys := FirstKeys(ks);
    var gs := Collect(leads, ks, t, keys);
    assert Grouped(leads, t) == gs;
    CollectGroups(leads, ks, t, keys);
    forall k | 0 <= k < |gs| ensures gs[k].value != "" {
      var i :| 0 <= i < |keys| && keys[i] == gs[k].value;
    }
  }

  /** Within one type, group values are distinct. */
  lemma GroupedDistinct(leads: seq<LeadKeys>, t: KeyType)
    ensures forall k, m :: 0 <= k < m < |Grouped(leads, t)| ==>
      Grouped(leads, t)[k].value != Grouped(leads, t)[m].value
  {
    var ks := Keys(leads, t);
    var keys := FirstKeys(ks);
    assert Grouped(leads, t) == Collect(leads, ks, t, keys);
    CollectDistinct(leads, ks, t, keys);
  }

  /** Two leads sharing a non-empty key have their group. */
  lemma GroupedComplete(leads: seq<LeadKeys>, t: KeyType, j: nat, j': nat)
    requires j < j' < |leads| && KeyOf(t, leads[j]) != "" && KeyOf(t, leads[j]) == KeyOf(t, leads[j'])
    ensures exists k :: 0 <= k < |Grouped(leads, t)| && Grouped(leads, t)[k].value == KeyOf(t, leads[j])
  {
    var ks := Keys(leads, t);
    var keys := FirstKeys(ks);
    assert Grouped(leads, t) == Collect(leads, ks, t, keys);
    assert ks[j] == KeyOf(t, leads[j]) && ks[j'] == KeyOf(t, leads[j']);
    FirstKeysHas(ks, j);
    var i :| 0 <= i < |keys| && keys[i] == ks[j];
    TwoMembers(ks, j, j');
    CollectComplete(leads, ks, t, keys, i);
  }

  /** A lead whose key of a type is empty is in no group of that type. */
  lemma EmptyKeyUngrouped(leads: seq<LeadKeys>, t: KeyType, l: LeadKeys)
    requires KeyOf(t, l) == ""
    ensures forall k :: 0 <= k < |Grouped(leads, t)| ==> l !in Grouped(leads, t)[k].leads
  {
    GroupedShape(leads, t);
    forall k | 0 <= k < |Grouped(leads, t)| ensures l !in Grouped(leads, t)[k].leads {
      var g := Grouped(leads, t)[k];
      MembersShape(leads, t, g.value);
    }
  }

  /** Groups whose kinds never go back in the visiting order. */
  predicate InBlocks(gs: seq<Group>) {
    forall k, m :: 0 <= k < m < |gs| ==> gs[k].kind.Order() <= gs[m].kind.Order()
  }

  /** A well-formed group of the report. */
  predicate Sound(leads: seq<LeadKeys>, g: Group) {
    g.value != "" && |g.leads| >= 2 && g.leads == Members(leads, Keys(leads, g.kind), g.value)
  }

  /** The blocks of `Report` are sound and, each being of one kind, come in
      order. */
  lemma BlockOf(leads: seq<LeadKeys>, t: KeyType)
    ensures forall k :: 0 <= k < |Grouped(leads, t)| ==>
      Grouped(leads, t)[k].kind == t && Sound(leads, Grouped(leads, t)[k])
  {
    GroupedShape(leads, t);
  }

  /** Appending a block of one kind, no earlier than the kinds before it. */
  lemma AppendBlock(gs: seq<Group>, block: seq<Group>, t: KeyType)
    requires InBlocks(gs) && forall k :: 0 <= k < |gs| ==> gs[k].kind.Order() <= t.Order()
    requires forall k :: 0 <= k < |block| ==> block[k].kind == t
    ensures InBlocks(gs + block)
    ensures forall k :: 0 <= k < |gs + block| ==> (gs + block)[k].kind.Order() <= t.Order()
  {
  }

  /** Five blocks of the five kinds, in kind order, make blocks. */
  lemma FiveBlocks(a: seq<Group>, b: seq<Group>, c: seq<Group>, d: seq<Group>, e: seq<Group>)
    requires forall k :: 0 <= k < |a| ==> a[k].kind == Telefono
    requires forall k :: 0 <= k < |b| ==> b[k].kind == WhatsApp
    requires forall k :: 0 <= k < |c| ==> c[k].kind == Instagram
    requires forall k :: 0 <= k < |d| ==> d[k].kind == Web
    requires forall k :: 0 <= k < |e| ==> e[k].kind == NombreEmpresa
    ensures InBlocks(a + b + c + d + e)
  {
    AppendBlock([], a, Telefono);
    assert [] + a == a;
    AppendBlock(a, b, WhatsApp);
    AppendBlock(a + b, c, Instagram);
    AppendBlock(a + b + c, d, Web);
    AppendBlock(a + b + c + d, e, NombreEmpresa);
  }

  /** The report comes in blocks by key type, in the order Telefono,
      WhatsApp, Instagram, Web, Nombre + Empresa. */
  lemma ReportInBlocks(leads: seq<LeadKeys>)
    ensures InBlocks(Report(leads))
  {
    BlockOf(leads, Telefono);
    BlockOf(leads, WhatsApp);
    BlockOf(leads, Instagram);
    BlockOf(leads, Web);
    BlockOf(leads, NombreEmpresa);
    FiveBlocks(Grouped(leads, Telefono), Grouped(leads, WhatsApp),
      Grouped(leads, Instagram), Grouped(leads, Web), Grouped(leads, NombreEmpresa));
  }

  /** Every group of the report is a sound group of its type. */
  lemma ReportSound(leads: seq<LeadKeys>)
    ensures forall k :: 0 <= k < |Report(leads)| ==> Sound(leads, Report(leads)[k])
  {
    BlockOf(leads, Telefono);
    BlockOf(leads, WhatsApp);
    BlockOf(leads, Instagram);
    BlockOf(leads, Web);
    BlockOf(leads, NombreEmpresa);
  }

  /** The name key: `name|company` when the normalised company is non-empty
      and does not itself end in a bar; `name|` plus the company without its
      final bar when it does (so companies `acme|` and `acme` share a key);
      just the name when the company is empty, so no key at all when both
      are. */
  lemma NameKeyShape(nombre: string, empresa: Option<string>)
    ensures NormalizeOpt(empresa) == "" ==> NameKey(nombre, empresa) == Normalize(nombre)
    ensures NormalizeOpt(empresa) != "" && NormalizeOpt(empresa)[|NormalizeOpt(empresa)| - 1] != '|' ==>
      NameKey(nombre, empresa) == Normalize(nombre) + "|" + NormalizeOpt(empresa)
    ensures NormalizeOpt(empresa) != "" && NormalizeOpt(empresa)[|NormalizeOpt(empresa)| - 1] == '|' ==>
      NameKey(nombre, empresa) == Normalize(nombre) + "|" + NormalizeOpt(empresa)[..|NormalizeOpt(empresa)| - 1]
    ensures NameKey(nombre, empresa) == "" <==> Normalize(nombre) == "" && NormalizeOpt(empresa) == ""
  {
    var n, e := Normalize(nombre), NormalizeOpt(empresa);
    var joined := n + "|" + e;
    if e == "" {
      assert joined[..|joined| - 1] == n;
    } else {
      assert joined[|joined| - 1] == e[|e| - 1];
      assert joined[..|joined| - 1] == n + "|" + e[..|e| - 1];
    }
  }
}
