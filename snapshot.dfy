/**
 * Decoding of realtime-database snapshots: the tolerant readers for numbers,
 * texts and flags, the photo-list normalisation, the machine and category
 * mappers with their soft-delete filter, the enterprise listing with its
 * legacy address migration, and the partial user update.
 */
module Snapshots {
  import opened Base
  import opened JavaStrings
  import opened Machines

  // ---------------------------------------------------------------------------
  // Children and text
  // ---------------------------------------------------------------------------

  /** `snapshot.child(key).getValue()`: the first child with that key, null when there is none. */
  function Child(v: DbValue, key: string): (r: DbValue)
    ensures !v.MapValue? ==> r == NullValue
  {
    if v.MapValue? then Lookup(v.entries, key) else NullValue
  }

  function Lookup(entries: seq<(string, DbValue)>, key: string): (r: DbValue)
    ensures r != NullValue ==> exists i :: 0 <= i < |entries| && entries[i] == (key, r)
    decreases |entries|
  {
    if entries == [] then NullValue
    else if entries[0].0 == key then entries[0].1
    else Lookup(entries[1..], key)
  }

  /** `snapshot.hasChild(key)`: the child exists with a non-null value. */
  predicate HasChild(v: DbValue, key: string)
  {
    Child(v, key) != NullValue
  }

  function JoinTexts(vs: seq<DbValue>): string
    decreases vs
  {
    if vs == [] then ""
    else if |vs| == 1 then ToText(vs[0])
    else ToText(vs[0]) + ", " + JoinTexts(vs[1..])
  }

  function JoinEntries(es: seq<(string, DbValue)>): string
    decreases es
  {
    if es == [] then ""
    else
      var e := es[0];
      assert e in es && e.1 < e;
      if |es| == 1 then e.0 + "=" + ToText(e.1)
      else e.0 + "=" + ToText(e.1) + ", " + JoinEntries(es[1..])
  }

  /** Java `toString()` of a database value. */
  function ToText(v: DbValue): string
    decreases v
  {
    match v
    case NullValue => "null"
    case BoolValue(b) => if b then "true" else "false"
    case LongValue(n) => IntToString(n)
    case TextValue(s) => s
    case ListValue(items) => "[" + JoinTexts(items) + "]"
    case MapValue(entries) => "{" + JoinEntries(entries) + "}"
  }

  /** `v != null ? v.toString() : ""`, the machine mapper's reading of its text fields. */
  function TextOrEmpty(v: DbValue): string
  {
    if v.NullValue? then "" else ToText(v)
  }

  // ---------------------------------------------------------------------------
  // readLong, readString, flags (FirebaseRealtimeService.java:1494-1518, 1059-1122)
  // ---------------------------------------------------------------------------

  /** `readLong`: a number as is, a text that parses as a long after trimming, otherwise null. */
  function ReadLong(v: DbValue): Option<int>
  {
    match v
    case LongValue(n) => Some(n)
    case TextValue(s) => if Trim(s) != "" then ParseLong(Trim(s)) else None
    case _ => None
  }

  /** The three cases of `readLong`. */
  lemma ReadLongCases(v: DbValue)
    ensures v.LongValue? ==> ReadLong(v) == Some(v.n)
    ensures v.TextValue? ==> ReadLong(v) == ParseLong(Trim(v.s))
    ensures !v.LongValue? && !v.TextValue? ==> ReadLong(v) == None
    ensures ReadLong(v).Some? && v.TextValue? ==> IsInt64(ReadLong(v).value)
  {
  }

  /** A long written as its decimal text, with any surrounding blanks, reads back as itself. */
  lemma ReadLongOfText(n: int, pad: string)
    requires IsInt64(n) && forall k :: 0 <= k < |pad| ==> pad[k] <= ' '
    ensures ReadLong(TextValue(pad + IntToString(n) + pad)) == Some(n)
  {
    var t := IntToString(n);
    assert t[0] > ' ' by {
      if n < 0 { } else { assert IsDigit(t[0]); }
    }
    assert t[|t| - 1] > ' ' by {
      if n < 0 {
        assert t[|t| - 1] == NatToString(-n)[|NatToString(-n)| - 1];
        assert IsDigit(NatToString(-n)[|NatToString(-n)| - 1]);
      } else {
        assert IsDigit(t[|t| - 1]);
      }
    }
    TrimAround(pad, t);
    ParseLongRoundTrip(n);
  }

  /** Trimming blanks around a text that starts and ends with a visible character leaves that text. */
  lemma TrimAround(pad: string, t: string)
    requires forall k :: 0 <= k < |pad| ==> pad[k] <= ' '
    requires t != [] && t[0] > ' ' && t[|t| - 1] > ' '
    ensures Trim(pad + t + pad) == t
  {
    var u := t + pad;
    assert pad + t + pad == pad + u;
    assert u[0] == t[0];
    TrimLeftPad(pad, u);
    TrimRightPad(t, pad);
  }

  lemma {:induction false} TrimLeftPad(pad: string, t: string)
    requires forall k :: 0 <= k < |pad| ==> pad[k] <= ' '
    requires t != [] && t[0] > ' '
    ensures TrimLeft(pad + t) == t
    decreases |pad|
  {
    if pad != [] {
      assert (pad + t)[1..] == pad[1..] + t;
      TrimLeftPad(pad[1..], t);
    } else {
      assert pad + t == t;
    }
  }

  lemma {:induction false} TrimRightPad(t: string, pad: string)
    requires forall k :: 0 <= k < |pad| ==> pad[k] <= ' '
    requires t != [] && t[|t| - 1] > ' '
    ensures TrimRight(t + pad) == t
    decreases |pad|
  {
    if pad != [] {
      assert (t + pad)[..|t + pad| - 1] == t + pad[..|pad| - 1];
      TrimRightPad(t, pad[..|pad| - 1]);
    } else {
      assert t + pad == t;
    }
  }

  /** `readString`: null stays null; otherwise the trimmed text, an empty one read as null. */
  function ReadString(v: DbValue): Option<string>
  {
    if v.NullValue? then None
    else
      var t := Trim(ToText(v));
      if t == "" then None else Some(t)
  }

  /** A text read is never blank at either end and reading it again gives it back. */
  lemma ReadStringStable(v: DbValue)
    ensures ReadString(v).Some? ==> ReadString(v).value != "" && Trim(ReadString(v).value) == ReadString(v).value
    ensures ReadString(v).Some? ==> ReadString(TextValue(ReadString(v).value)) == ReadString(v)
    ensures v.NullValue? ==> ReadString(v).None?
  {
    if !v.NullValue? {
      var t := Trim(ToText(v));
      assert ReadString(v) == if t == "" then None else Some(t);
      if t != "" {
        TrimIdempotent(ToText(v));
        ReadTrimmedText(t);
      }
    }
  }

  /** A trimmed, non-empty text reads as itself. */
  lemma ReadTrimmedText(t: string)
    requires t != "" && Trim(t) == t
    ensures ReadString(TextValue(t)) == Some(t)
  {
    assert ToText(TextValue(t)) == t;
  }

  /** `Boolean.parseBoolean`: "true" in any case. */
  predicate ParseBoolean(s: string)
  {
    EqualsIgnoreCase(s, "true")
  }

  /** A flag of the machine mapper: a boolean as is, null as the default, anything else through `parseBoolean`. */
  function ReadFlag(v: DbValue, default: bool): bool
  {
    match v
    case BoolValue(b) => b
    case NullValue => default
    case _ => ParseBoolean(ToText(v))
  }

  lemma ReadFlagCases(v: DbValue, default: bool)
    ensures v.BoolValue? ==> ReadFlag(v, default) == v.b
    ensures v.NullValue? ==> ReadFlag(v, default) == default
    ensures v.TextValue? ==> ReadFlag(v, default) == EqualsIgnoreCase(v.s, "true")
    ensures v.LongValue? ==> !ReadFlag(v, default)
  {
    if v.LongValue? {
      var t := IntToString(v.n);
      if |t| == 4 {
        assert t[0] == '-' || IsDigit(t[0]) by {
          if v.n >= 0 { assert IsDigit(NatToString(v.n)[0]); }
        }
        assert ToLower(t)[0] == LowerChar(t[0]);
      }
    }
  }

  // ---------------------------------------------------------------------------
  // Photo normalisation (FirebaseRealtimeService.java:1124-1149)
  // ---------------------------------------------------------------------------

  /** A photo entry worth keeping: a string that is not blank. */
  predicate IsPhoto(v: DbValue)
  {
    v.TextValue? && HasText(v.s)
  }

  /** The photos of a list: its non-blank strings, in order. */
  function PhotosOfList(items: seq<DbValue>): seq<string>
    decreases |items|
  {
    if items == [] then []
    else
      var last := items[|items| - 1];
      PhotosOfList(items[..|items| - 1]) + if IsPhoto(last) then [last.s] else []
  }

  /** The photos of a map: the non-blank strings stored under `keys`, in that order. */
  function PhotosOfKeys(entries: seq<(string, DbValue)>, keys: seq<string>): seq<string>
    decreases |keys|
  {
    if keys == [] then []
    else
      var v := Lookup(entries, keys[|keys| - 1]);
      PhotosOfKeys(entries, keys[..|keys| - 1]) + if IsPhoto(v) then [v.s] else []
  }

  function KeysOf(entries: seq<(string, DbValue)>): seq<string>
  {
    seq(|entries|, i requires 0 <= i < |entries| => entries[i].0)
  }

  /** `String::compareTo` order on keys. */
  predicate SortedTexts(ks: seq<string>)
  {
    forall i, j :: 0 <= i < j < |ks| ==> LexLeq(ks[i], ks[j])
  }

  /** Insert `k` into a sorted list after every key not above it. */
  function InsertText(ks: seq<string>, k: string): seq<string>
    decreases |ks|
  {
    if ks == [] then [k]
    else if LexLeq(ks[0], k) then [ks[0]] + InsertText(ks[1..], k)
    else [k] + ks
  }

  /** Insertion keeps a sorted list sorted and adds exactly the new key. */
  lemma {:induction false} InsertTextSorted(ks: seq<string>, k: string)
    requires SortedTexts(ks)
    ensures SortedTexts(InsertText(ks, k))
    ensures multiset(InsertText(ks, k)) == multiset(ks) + multiset{k}
    decreases |ks|
  {
    if ks == [] {
    } else if LexLeq(ks[0], k) {
      InsertTextSorted(ks[1..], k);
      InsertAfterHead(ks, k, InsertText(ks[1..], k));
    } else {
      InsertBeforeHead(ks, k);
    }
  }

  /** The head stays in front of a sorted insertion into the tail. */
  lemma InsertAfterHead(ks: seq<string>, k: string, rest: seq<string>)
    requires ks != [] && SortedTexts(ks) && LexLeq(ks[0], k)
    requires SortedTexts(rest) && multiset(rest) == multiset(ks[1..]) + multiset{k}
    ensures SortedTexts([ks[0]] + rest)
    ensures multiset([ks[0]] + rest) == multiset(ks) + multiset{k}
  {
    assert ks == [ks[0]] + ks[1..];
    forall j | 0 <= j < |rest|
      ensures LexLeq(ks[0], rest[j])
    {
      assert rest[j] in multiset(rest);
      if rest[j] != k {
        assert rest[j] in multiset(ks[1..]);
        var i :| 0 <= i < |ks[1..]| && ks[1..][i] == rest[j];
        assert ks[i + 1] == rest[j];
      }
    }
    var r := [ks[0]] + rest;
    forall a, b | 0 <= a < b < |r|
      ensures LexLeq(r[a], r[b])
    {
      if a > 0 { assert r[a] == rest[a - 1] && r[b] == rest[b - 1]; }
      else { assert r[b] == rest[b - 1]; }
    }
  }

  /** A key below the head goes in front of a sorted list. */
  lemma InsertBeforeHead(ks: seq<string>, k: string)
    requires ks != [] && SortedTexts(ks) && !LexLeq(ks[0], k)
    ensures SortedTexts([k] + ks)
  {
    LexLeqTotal(ks[0], k);
    var r := [k] + ks;
    forall a, b | 0 <= a < b < |r|
      ensures LexLeq(r[a], r[b])
    {
      if a == 0 {
        if b > 1 { LexLeqTrans(k, ks[0], ks[b - 1]); }
      } else {
        assert r[a] == ks[a - 1] && r[b] == ks[b - 1];
      }
    }
  }

  /** `keys.sort(String::compareTo)`, a library sort: a sorted permutation of its input. */
  function SortTexts(ks: seq<string>): (r: seq<string>)
    ensures SortedTexts(r) && multiset(r) == multiset(ks)
    decreases |ks|
  {
    if ks == [] then []
    else
      var n := |ks| - 1;
      var prev := SortTexts(ks[..n]);
      assert ks == ks[..n] + [ks[n]];
      InsertTextSorted(prev, ks[n]);
      InsertText(prev, ks[n])
  }

  /** The photo list of a machine node: list, map in key order, single string, or nothing. */
  function PhotosOf(raw: DbValue): seq<string>
  {
    match raw
    case ListValue(items) => PhotosOfList(items)
    case MapValue(entries) => PhotosOfKeys(entries, SortTexts(KeysOf(entries)))
    case TextValue(s) => if HasText(s) then [s] else []
    case _ => []
  }

  /** Every photo kept is a non-blank string stored in the node. */
  lemma {:induction false} PhotosOfListMembers(items: seq<DbValue>)
    ensures forall p :: p in PhotosOfList(items) <==> TextValue(p) in items && HasText(p)
    decreases |items|
  {
    if items != [] {
      var n := |items| - 1;
      PhotosOfListMembers(items[..n]);
      assert items == items[..n] + [items[n]];
    }
  }

  /** From a map, every photo is the non-blank string of one of its keys. */
  lemma {:induction false} PhotosOfKeysMembers(entries: seq<(string, DbValue)>, keys: seq<string>)
    ensures forall p :: p in PhotosOfKeys(entries, keys) ==>
              HasText(p) && exists k :: k in keys && Lookup(entries, k) == TextValue(p)
    decreases |keys|
  {
    if keys != [] {
      var n := |keys| - 1;
      PhotosOfKeysMembers(entries, keys[..n]);
      assert forall k :: k in keys[..n] ==> k in keys;
      assert keys[n] in keys;
    }
  }

  /** The photo loop over a list. */
  method CollectListPhotos(items: seq<DbValue>) returns (photos: seq<string>)
    ensures photos == PhotosOfList(items)
  {
    photos := [];
    var i := 0;
    while i < |items|
      invariant 0 <= i <= |items|
      invariant photos == PhotosOfList(items[..i])
    {
      var value := items[i];
      if value.TextValue? && HasText(value.s) {
        photos := photos + [value.s];
      }
      assert items[..i + 1][..i] == items[..i];
      i := i + 1;
    }
    assert items[..i] == items;
  }

  /** The photo loop over a map: gather the keys, sort them, read the values in that order. */
  method CollectMapPhotos(entries: seq<(string, DbValue)>) returns (photos: seq<string>)
    ensures photos == PhotosOfKeys(entries, SortTexts(KeysOf(entries)))
  {
    var keys: seq<string> := [];
    var i := 0;
    while i < |entries|
      invariant 0 <= i <= |entries|
      invariant keys == KeysOf(entries[..i])
    {
      keys := keys + [entries[i].0];
      i := i + 1;
    }
    assert entries[..i] == entries;
    keys := SortTexts(keys);
    photos := [];
    var j := 0;
    while j < |keys|
      invariant 0 <= j <= |keys|
      invariant photos == PhotosOfKeys(entries, keys[..j])
    {
      var value := Lookup(entries, keys[j]);
      if value.TextValue? && HasText(value.s) {
        photos := photos + [value.s];
      }
      assert keys[..j + 1][..j] == keys[..j];
      j := j + 1;
    }
    assert keys[..j] == keys;
  }

  /** Photo normalisation of a machine node. */
  method NormalisePhotos(raw: DbValue) returns (photos: seq<string>)
    ensures photos == PhotosOf(raw)
  {
    match raw
    case ListValue(items) => photos := CollectListPhotos(items);
    case MapValue(entries) => photos := CollectMapPhotos(entries);
    case TextValue(s) => photos := if HasText(s) then [s] else [];
    case _ => photos := [];
  }

  /** Each kept photo is a non-blank text. */
  lemma PhotosAreTexts(raw: DbValue)
    ensures forall p :: p in PhotosOf(raw) ==> HasText(p)
  {
    match raw
    case ListValue(items) => PhotosOfListMembers(items);
    case MapValue(entries) => PhotosOfKeysMembers(entries, SortTexts(KeysOf(entries)));
    case _ =>
  }

  // ---------------------------------------------------------------------------
  // The machine mapper and the soft-delete filter (FirebaseRealtimeService.java:1047-1171, 838-849)
  // ---------------------------------------------------------------------------

  /** A date field: only a number is read. */
  function ReadNumber(v: DbValue): Option<int>
  {
    if v.LongValue? then Some(v.n) else None
  }

  /** The custom fields of a node: its children with a non-null value, later keys overwriting earlier ones. */
  function ChampsOf(entries: seq<(string, DbValue)>): map<string, DbValue>
    decreases |entries|
  {
    if entries == [] then map[]
    else
      var n := |entries| - 1;
      var prev := ChampsOf(entries[..n]);
      if entries[n].1 != NullValue then prev[entries[n].0 := entries[n].1] else prev
  }

  /** `mapMachineSnapshot`: the machine read from its node. */
  function MachineOf(node: DbValue, entrepriseId: string, machineId: string): Machine
  {
    var champs := Child(node, "champsPersonnalises");
    Machine(
      Some(machineId), Some(entrepriseId),
      Some(TextOrEmpty(Child(node, "nom"))), Some(TextOrEmpty(Child(node, "numeroSerie"))),
      PhotosOf(Child(node, "photos")),
      Some(TextOrEmpty(Child(node, "emplacement"))), Some(TextOrEmpty(Child(node, "notes"))),
      ReadNumber(Child(node, "dateCreation")), ReadNumber(Child(node, "dateMiseAJour")),
      ReadLong(Child(node, "categoryId")), ReadString(Child(node, "categoryName")),
      ReadString(Child(node, "categoryDescription")),
      Some(ReadFlag(Child(node, "operationnel"), true)), Some(ReadFlag(Child(node, "enReparation"), false)),
      Some(ReadFlag(Child(node, "enProgrammation"), false)),
      ReadString(Child(node, "adresseIP")), ReadString(Child(node, "machinePrincipaleId")),
      Some(ReadFlag(Child(node, "estMachineSecours"), false)), Some(ReadFlag(Child(node, "estMachineEntrepot"), false)),
      ReadString(Child(node, "creePar")), ReadLong(Child(node, "creeLe")),
      ReadString(Child(node, "modifiePar")), ReadLong(Child(node, "modifieLe")),
      ReadString(Child(node, "supprimePar")), ReadLong(Child(node, "supprimeLe")),
      Some(ReadFlag(Child(node, "supprime"), false)),
      if champs.MapValue? then ChampsOf(champs.entries) else map[])
  }

  /** The mapper as the service runs it: the setters in order, with the photo loops. */
  method MapMachineSnapshot(node: DbValue, entrepriseId: string, machineId: string) returns (m: Machine)
    ensures m == MachineOf(node, entrepriseId, machineId)
  {
    var photos := NormalisePhotos(Child(node, "photos"));
    m := MachineOf(node, entrepriseId, machineId).(photos := photos);
  }

  /**
   * A decoded machine always has its flags set, so its getters are the
   * stored values: an absent flag reads as operational, not in repair, not
   * programmed, not a backup, not in the warehouse, not deleted.
   */
  lemma DecodedFlags(node: DbValue, e: string, id: string)
    ensures var m := MachineOf(node, e, id);
            m.operationnel.Some? && m.enReparation.Some? && m.estMachineSecours.Some?
            && m.estMachineEntrepot.Some? && m.supprime.Some? && m.enProgrammation.Some?
    ensures !HasChild(node, "operationnel") ==> MachineOf(node, e, id).Operationnel()
    ensures !HasChild(node, "enReparation") ==> !MachineOf(node, e, id).EnReparation()
    ensures !HasChild(node, "supprime") ==> !MachineOf(node, e, id).Supprime()
    ensures !HasChild(node, "estMachineSecours") ==> !MachineOf(node, e, id).EstSecours()
    ensures !HasChild(node, "estMachineEntrepot") ==> !MachineOf(node, e, id).EstEntrepot()
  {
  }

  /** A text field stored in the node is read through `toString`, an absent one as "". */
  lemma DecodedTexts(node: DbValue, e: string, id: string)
    ensures var m := MachineOf(node, e, id);
            m.nom.Some? && m.numeroSerie.Some? && m.emplacement.Some? && m.notes.Some?
            && (!HasChild(node, "nom") ==> m.nom == Some(""))
            && (Child(node, "nom").TextValue? ==> m.nom == Some(Child(node, "nom").s))
            && m.machineId == Some(id) && m.entrepriseId == Some(e)
  {
  }

  /** The kept children of the machines node: keys not starting with "_", machines not deleted. */
  function LiveMachines(children: seq<(string, DbValue)>, entrepriseId: string): seq<Machine>
    decreases |children|
  {
    if children == [] then []
    else
      var n := |children| - 1;
      var id := children[n].0;
      var m := MachineOf(children[n].1, entrepriseId, id);
      LiveMachines(children[..n], entrepriseId)
      + if !StartsWith(id, "_") && !m.Supprime() then [m] else []
  }

  lemma LiveMachinesStep(children: seq<(string, DbValue)>, e: string, i: int)
    requires 0 <= i < |children|
    ensures var m := MachineOf(children[i].1, e, children[i].0);
            LiveMachines(children[..i + 1], e)
            == LiveMachines(children[..i], e) + if !StartsWith(children[i].0, "_") && !m.Supprime() then [m] else []
  {
    assert children[..i + 1][..i] == children[..i];
  }

  /** `getMachinesForEnterprise`: the listener's loop over the machine nodes. */
  method GetMachinesForEnterprise(children: seq<(string, DbValue)>, entrepriseId: string)
    returns (machines: seq<Machine>)
    ensures machines == LiveMachines(children, entrepriseId)
  {
    machines := [];
    var i := 0;
    while i < |children|
      invariant 0 <= i <= |children|
      invariant machines == LiveMachines(children[..i], entrepriseId)
    {
      var machineId := children[i].0;
      LiveMachinesStep(children, entrepriseId, i);
      if !StartsWith(machineId, "_") {
        var machine := MapMachineSnapshot(children[i].1, entrepriseId, machineId);
        if !machine.Supprime() {
          machines := machines + [machine];
        }
      }
      i := i + 1;
    }
    assert children[..i] == children;
  }

  /** A soft-deleted machine is never listed, and every listed machine has a real id. */
  lemma {:induction false} LiveMachinesNotDeleted(children: seq<(string, DbValue)>, e: string)
    ensures forall m :: m in LiveMachines(children, e) ==>
              !m.Supprime() && m.machineId.Some? && !StartsWith(m.machineId.value, "_")
    decreases |children|
  {
    if children != [] {
      LiveMachinesNotDeleted(children[..|children| - 1], e);
    }
  }

  /** A node whose `supprime` flag is set decodes to a machine that is never listed. */
  lemma DeletedNodeSkipped(children: seq<(string, DbValue)>, e: string, id: string, node: DbValue)
    requires Child(node, "supprime") == BoolValue(true) || Child(node, "supprime") == TextValue("true")
    ensures MachineOf(node, e, id) !in LiveMachines(children, e)
  {
    LiveMachinesNotDeleted(children, e);
    DeletedFlagRead(node, e, id);
  }

  /** A `supprime` child of `true` or "true" marks the decoded machine as deleted. */
  lemma DeletedFlagRead(node: DbValue, e: string, id: string)
    requires Child(node, "supprime") == BoolValue(true) || Child(node, "supprime") == TextValue("true")
    ensures MachineOf(node, e, id).Supprime()
  {
    var v := Child(node, "supprime");
    if v.TextValue? {
      assert EqualsIgnoreCase(v.s, "true");
    }
    assert ReadFlag(v, false);
  }

  /** Every listed machine is the decoding of one of the nodes, under that node's key. */
  lemma {:induction false} LiveMachinesOrigin(children: seq<(string, DbValue)>, e: string)
    ensures forall m :: m in LiveMachines(children, e) ==>
              exists j :: 0 <= j < |children| && m == MachineOf(children[j].1, e, children[j].0)
    decreases |children|
  {
    if children != [] {
      var n := |children| - 1;
      var prefix := children[..n];
      LiveMachinesOrigin(prefix, e);
      forall m | m in LiveMachines(children, e)
        ensures exists j :: 0 <= j < |children| && m == MachineOf(children[j].1, e, children[j].0)
      {
        if m in LiveMachines(prefix, e) {
          var j :| 0 <= j < n && m == MachineOf(prefix[j].1, e, prefix[j].0);
          assert prefix[j] == children[j];
        }
      }
    }
  }

  // ---------------------------------------------------------------------------
  // Enterprise listing (FirebaseRealtimeService.java:686-712)
  // ---------------------------------------------------------------------------

  /** One row of `getAllEnterprises`. */
  datatype EnterpriseRow = EnterpriseRow(
    entrepriseId: string, nom: DbValue, rue: DbValue, codePostal: DbValue, ville: DbValue,
    email: DbValue, numero: DbValue, dateCreation: DbValue)

  /** A child value, or "" when it is null. */
  function OrEmpty(v: DbValue): DbValue
  {
    if v.NullValue? then TextValue("") else v
  }

  /** The row of one enterprise node, with the legacy `adresse` moved into `rue`. */
  function EnterpriseRowOf(id: string, node: DbValue): EnterpriseRow
  {
    var address :=
      if HasChild(node, "rue") then
        (OrEmpty(Child(node, "rue")), OrEmpty(Child(node, "codePostal")), OrEmpty(Child(node, "ville")))
      else if HasChild(node, "adresse") then
        (TextValue(ToText(Child(node, "adresse"))), TextValue(""), TextValue(""))
      else (TextValue(""), TextValue(""), TextValue(""));
    EnterpriseRow(id, OrEmpty(Child(node, "nom")), address.0, address.1, address.2,
                  OrEmpty(Child(node, "email")), OrEmpty(Child(node, "numero")), Child(node, "dateCreation"))
  }

  /** The rows of every enterprise whose key does not start with "_". */
  function EnterpriseRows(children: seq<(string, DbValue)>): seq<EnterpriseRow>
    decreases |children|
  {
    if children == [] then []
    else
      var n := |children| - 1;
      EnterpriseRows(children[..n])
      + if !StartsWith(children[n].0, "_") then [EnterpriseRowOf(children[n].0, children[n].1)] else []
  }

  /** `getAllEnterprises`: the listener's loop. */
  method GetAllEnterprises(children: seq<(string, DbValue)>) returns (rows: seq<EnterpriseRow>)
    ensures rows == EnterpriseRows(children)
  {
    rows := [];
    var i := 0;
    while i < |children|
      invariant 0 <= i <= |children|
      invariant rows == EnterpriseRows(children[..i])
    {
      var entrepriseId := children[i].0;
      if !StartsWith(entrepriseId, "_") {
        rows := rows + [EnterpriseRowOf(entrepriseId, children[i].1)];
      }
      assert children[..i + 1][..i] == children[..i];
      i := i + 1;
    }
    assert children[..i] == children;
  }

  /**
   * The address fields are never null; a node with only the legacy `adresse`
   * lists it as `rue` with an empty postcode and city; one with neither gets
   * three empty fields.
   */
  lemma EnterpriseAddress(id: string, node: DbValue)
    ensures var r := EnterpriseRowOf(id, node);
            !r.rue.NullValue? && !r.codePostal.NullValue? && !r.ville.NullValue?
            && !r.nom.NullValue? && !r.email.NullValue? && !r.numero.NullValue?
    ensures !HasChild(node, "rue") && HasChild(node, "adresse") ==>
              var r := EnterpriseRowOf(id, node);
              r.rue == TextValue(ToText(Child(node, "adresse")))
              && r.codePostal == TextValue("") && r.ville == TextValue("")
    ensures HasChild(node, "rue") ==> EnterpriseRowOf(id, node).rue == Child(node, "rue")
  {
  }

  /** Reserved keys such as "_empty" never produce a row, and every row keeps its key. */
  lemma {:induction false} EnterpriseRowsSkipReserved(children: seq<(string, DbValue)>)
    ensures forall r :: r in EnterpriseRows(children) ==> !StartsWith(r.entrepriseId, "_")
    ensures |EnterpriseRows(children)| <= |children|
    decreases |children|
  {
    if children != [] {
      EnterpriseRowsSkipReserved(children[..|children| - 1]);
    }
  }

  // ---------------------------------------------------------------------------
  // updateUser (FirebaseRealtimeService.java:597-640)
  // ---------------------------------------------------------------------------

  /** The user fields `updateUser` copies when present, besides the role and the phone mirror. */
  predicate CopiedUserField(k: string)
  {
    k == "nom" || k == "prenom" || k == "email" || k == "nomUtilisateur" || k == "statut"
    || k == "telephone" || k == "numeroTelephone" || k == "horairesTravail"
  }

  /** Whether the role in the input is written: any role but "superadmin" (a null role is written). */
  predicate RoleWritten(data: map<string, DbValue>)
  {
    "role" in data && data["role"] != TextValue("superadmin")
  }

  /**
   * The update map of `updateUser`. A role that is neither a string nor null
   * makes the cast fail, which the model reports as an error.
   */
  function UserUpdates(data: map<string, DbValue>): Result<map<string, DbValue>>
  {
    if "role" in data && !(data["role"].TextValue? || data["role"].NullValue?) then
      Err("role is not a string")
    else
      var copied := map k | k in data && CopiedUserField(k) :: data[k];
      var withRole := if RoleWritten(data) then copied["role" := data["role"]] else copied;
      Ok(if "numeroTelephone" in data && "telephone" !in data
         then withRole["telephone" := data["numeroTelephone"]] else withRole)
  }

  /**
   * Only fields present in the input are written (the phone mirror aside),
   * each with its input value; the role "superadmin" is never written; and a
   * `numeroTelephone` without `telephone` is mirrored into `telephone`.
   */
  lemma UserUpdatesWrites(data: map<string, DbValue>)
    requires UserUpdates(data).Ok?
    ensures var u := UserUpdates(data).value;
            (forall k :: k in u ==> (k in data && u[k] == data[k])
                                    || (k == "telephone" && "numeroTelephone" in data && u[k] == data["numeroTelephone"]))
            && (forall k :: k in data && CopiedUserField(k) ==> k in u)
            && ("role" in u <==> RoleWritten(data))
            && ("role" in u ==> u["role"] != TextValue("superadmin"))
            && ("numeroTelephone" in data && "telephone" !in data ==> u["telephone"] == data["numeroTelephone"])
            && (forall k :: k in u ==> CopiedUserField(k) || k == "role")
  {
  }

  // ---------------------------------------------------------------------------
  // Categories (FirebaseRealtimeService.java:2274-2327)
  // ---------------------------------------------------------------------------

  /** `Math.abs((long) key.hashCode())`. */
  function CategoryIdOf(key: string): (id: int)
    ensures 0 <= id <= 0x8000_0000
  {
    var h := HashCode(key);
    if h < 0 then -h else h
  }

  /** `mapCategorySnapshot`: the id from the key's hash, name and description through `readString`. */
  function CategoryOf(key: Option<string>, node: DbValue): Category
  {
    Category(if key.Some? then Some(CategoryIdOf(key.value)) else None,
             ReadString(Child(node, "name")), ReadString(Child(node, "description")))
  }

  /** `serializeCategory`: name and description, null written as "". */
  function SerializeCategory(c: Category): DbValue
  {
    MapValue([("name", TextValue(if c.name.Some? then c.name.value else "")),
              ("description", TextValue(if c.description.Some? then c.description.value else ""))])
  }

  /**
   * Writing a category and reading it back under the same key gives the
   * trimmed name and description, a blank one coming back as null, and the
   * id derived from the key.
   */
  lemma CategoryRoundTrip(key: string, c: Category)
    ensures var r := CategoryOf(Some(key), SerializeCategory(c));
            r.id == Some(CategoryIdOf(key))
            && r.name == (if c.name.Some? && Trim(c.name.value) != "" then Some(Trim(c.name.value)) else None)
            && r.description == (if c.description.Some? && Trim(c.description.value) != ""
                                 then Some(Trim(c.description.value)) else None)
  {
    var name := if c.name.Some? then c.name.value else "";
    var description := if c.description.Some? then c.description.value else "";
    assert Child(SerializeCategory(c), "name") == TextValue(name);
    var rest := SerializeCategory(c).entries[1..];
    assert rest == [("description", TextValue(description))];
    assert Lookup(rest, "description") == TextValue(description);
    assert Child(SerializeCategory(c), "description") == TextValue(description);
  }

  /** A category whose fields are already trimmed and non-empty survives the round trip unchanged, but for its id. */
  lemma CategoryRoundTripExact(key: string, c: Category)
    requires c.name.Some? && c.name.value != "" && Trim(c.name.value) == c.name.value
    requires c.description.Some? && c.description.value != "" && Trim(c.description.value) == c.description.value
    ensures CategoryOf(Some(key), SerializeCategory(c)) == c.(id := Some(CategoryIdOf(key)))
  {
    CategoryRoundTrip(key, c);
  }
}
