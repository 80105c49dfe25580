/*
 * Enterprises: the form checks and trimming of EnterpriseController.java,
 * the JPA/realtime-database pair kept by EnterpriseService.java, and the
 * Firebase-to-JPA synchronisation with its legacy address migration.
 */
module Enterprises {
  import opened Base
  import opened JavaStrings
  import opened Roles
  import opened Snapshots

  // ---------------------------------------------------------------------------
  // Page guard (EnterpriseController.java:101-107, 190-194)
  // ---------------------------------------------------------------------------

  /**
   * The list and create pages render only for a session whose role is
   * "superadmin" in any case; `role` is None without a session or role.
   */
  predicate PageAllowed(role: Option<string>)
  {
    IsSuperAdmin(role)
  }

  lemma PageGuardRule(role: Option<string>)
    ensures PageAllowed(role) <==> role.Some? && EqualsIgnoreCase(role.value, SUPERADMIN)
    ensures PageAllowed(Some("Superadmin"))
  {
    IsSuperAdminIgnoresCase(role);
    ExactGuardIsStricter(role);
  }

  // ---------------------------------------------------------------------------
  // Form checks and trimming (EnterpriseController.java:237-277, 393-416)
  // ---------------------------------------------------------------------------

  /** The posted form; name, email and phone are required parameters, the address parts are optional. */
  datatype EnterpriseForm = EnterpriseForm(
    nom: string, rue: Option<string>, codePostal: Option<string>, ville: Option<string>,
    email: string, numero: string)

  datatype FormRefusal = BlankName | InvalidEmail | BlankPhone

  /** The first failing check, in the handlers' order; None when the form is accepted. */
  function FormRefusalOf(f: EnterpriseForm): Option<FormRefusal>
  {
    if Trim(f.nom) == [] then Some(BlankName)
    else if Trim(f.email) == [] || !Contains(f.email, "@") then Some(InvalidEmail)
    else if Trim(f.numero) == [] then Some(BlankPhone)
    else None
  }

  /** A form is accepted iff name and phone survive `trim()` and the email is non-blank and holds an '@'. */
  lemma FormAcceptedIff(f: EnterpriseForm)
    ensures FormRefusalOf(f).None? <==>
              Trim(f.nom) != [] && Trim(f.email) != [] && Contains(f.email, "@") && Trim(f.numero) != []
    ensures FormRefusalOf(f) == Some(BlankName) <==> (forall k :: 0 <= k < |f.nom| ==> f.nom[k] <= ' ')
  {
    TrimEmptyIff(f.nom);
  }

  /** The six descriptive fields of an enterprise, each possibly null. */
  datatype Fields = Fields(
    nom: Option<string>, rue: Option<string>, codePostal: Option<string>, ville: Option<string>,
    email: Option<string>, numero: Option<string>)

  /** The entity the create handler hands to the service: trimmed, with absent address parts left null. */
  function NewFields(f: EnterpriseForm): Fields
  {
    Fields(Some(Trim(f.nom)), TrimOrNull(f.rue), TrimOrNull(f.codePostal), TrimOrNull(f.ville),
           Some(Trim(f.email)), Some(Trim(f.numero)))
  }

  predicate TrimmedOrNull(s: Option<string>)
  {
    s.None? || Trim(s.value) == s.value
  }

  /**
   * Create stores every field already trimmed, keeps the name, email and
   * phone, and leaves an address part null exactly when it was not posted.
   */
  lemma NewFieldsTrimmed(f: EnterpriseForm)
    ensures var fs := NewFields(f);
            TrimmedOrNull(fs.nom) && TrimmedOrNull(fs.rue) && TrimmedOrNull(fs.codePostal)
            && TrimmedOrNull(fs.ville) && TrimmedOrNull(fs.email) && TrimmedOrNull(fs.numero)
    ensures var fs := NewFields(f);
            fs.nom.Some? && fs.email.Some? && fs.numero.Some?
            && (fs.rue.None? <==> f.rue.None?) && (fs.codePostal.None? <==> f.codePostal.None?)
            && (fs.ville.None? <==> f.ville.None?)
  {
    TrimmedText(f.nom);
    TrimmedText(f.email);
    TrimmedText(f.numero);
    TrimmedOptional(f.rue);
    TrimmedOptional(f.codePostal);
    TrimmedOptional(f.ville);
  }

  lemma TrimmedText(s: string)
    ensures TrimmedOrNull(Some(Trim(s)))
  {
    TrimIdempotent(s);
  }

  lemma TrimmedOptional(s: Option<string>)
    ensures TrimmedOrNull(TrimOrNull(s)) && (TrimOrNull(s).None? <==> s.None?)
  {
    if s.Some? { TrimIdempotent(s.value); }
  }

  /**
   * The child names of an enterprise node ("nom", "rue", "codePostal",
   * "ville", "email", "numero", the legacy "adresse", the listing's
   * "entrepriseId" and "dateCreation"), and any other name.
   */
  datatype Key = Nom | Rue | CodePostal | Ville | Email | Numero | Adresse | EntrepriseId | DateCreation
               | OtherKey(name: string)

  /** The children of an enterprise node, by key. */
  type Node = map<Key, DbValue>

  /** A nullable text as a database value. */
  function OptText(s: Option<string>): DbValue
  {
    if s.Some? then TextValue(s.value) else NullValue
  }

  /** The six children both writers send. */
  function Children(nom: DbValue, rue: string, codePostal: string, ville: string, email: string, numero: string): Node
  {
    map[Nom := nom, Rue := TextValue(rue), CodePostal := TextValue(codePostal), Ville := TextValue(ville),
        Email := TextValue(email), Numero := TextValue(numero)]
  }

  /** The map the service sends to the database: the name as is, "" for any other null field. */
  function FieldsData(fs: Fields): Node
  {
    Children(OptText(fs.nom), fs.rue.GetOr(""), fs.codePostal.GetOr(""), fs.ville.GetOr(""),
             fs.email.GetOr(""), fs.numero.GetOr(""))
  }

  /** The map the edit handler sends: trimmed, "" for an absent address part. */
  function EditData(f: EnterpriseForm): Node
  {
    Children(TextValue(Trim(f.nom)), TrimOrEmpty(f.rue), TrimOrEmpty(f.codePostal), TrimOrEmpty(f.ville),
             Trim(f.email), Trim(f.numero))
  }

  /** Creating from a form and editing with the same form send the database the same six children. */
  lemma CreateAndEditSendSameData(f: EnterpriseForm)
    ensures FieldsData(NewFields(f)) == EditData(f)
  {
    var fs := NewFields(f);
    assert fs.rue.GetOr("") == TrimOrEmpty(f.rue);
    assert fs.codePostal.GetOr("") == TrimOrEmpty(f.codePostal);
    assert fs.ville.GetOr("") == TrimOrEmpty(f.ville);
  }

  lemma TrimOrEmptyIdempotent(s: Option<string>)
    ensures TrimOrEmpty(Some(TrimOrEmpty(s))) == TrimOrEmpty(s)
  {
    if s.Some? { TrimIdempotent(s.value); }
  }

  /** Submitting the stored text again stores the same text: the edit is idempotent. */
  lemma EditIdempotent(f: EnterpriseForm)
    ensures var g := EnterpriseForm(Trim(f.nom), Some(TrimOrEmpty(f.rue)), Some(TrimOrEmpty(f.codePostal)),
                                    Some(TrimOrEmpty(f.ville)), Trim(f.email), Trim(f.numero));
            EditData(g) == EditData(f)
  {
    TrimIdempotent(f.nom);
    TrimIdempotent(f.email);
    TrimIdempotent(f.numero);
    TrimOrEmptyIdempotent(f.rue);
    TrimOrEmptyIdempotent(f.codePostal);
    TrimOrEmptyIdempotent(f.ville);
  }

  // ---------------------------------------------------------------------------
  // updateEnterprise in the database service (FirebaseRealtimeService.java:1523-1536)
  // ---------------------------------------------------------------------------

  /** `updateChildren`: the given children replace or join the node's, the rest stay. */
  function MergeChildren(node: Node, updates: Node): Node
  {
    node + updates
  }

  /** As written: only Nom, Adresse and Numero are forwarded; every other child is dropped. */
  function ForwardedAsWritten(data: Node): (r: Node)
    ensures forall k :: k in r ==> k in data && r[k] == data[k]
    ensures forall k :: k in data && (k == Nom || k == Adresse || k == Numero) ==> k in r
  {
    map k | k in data && (k == Nom || k == Adresse || k == Numero) :: data[k]
  }

  /**
   * As written, an edit through the database service leaves the street,
   * postcode, city and email the node already had: the posted values never
   * reach the database.
   */
  lemma EditDropsAddressAndEmail(node: Node, f: EnterpriseForm)
    ensures var r := MergeChildren(node, ForwardedAsWritten(EditData(f)));
            (forall k :: k in node && (k == Rue || k == CodePostal || k == Ville || k == Email) ==> r[k] == node[k])
            && (Email !in node ==> Email !in r)
  {
    var u := ForwardedAsWritten(EditData(f));
    assert Rue !in u && CodePostal !in u && Ville !in u && Email !in u;
  }

  /**
   * What `updateEnterprise` does with the six children, as written: the name
   * and phone number become the sent ones, and every other child, including
   * the street, postcode, city and email, keeps whatever the node had.
   */
  lemma AsWrittenStores(node: Node, nom: DbValue, rue: string, codePostal: string, ville: string,
                        email: string, numero: string)
    ensures var r := MergeChildren(node, ForwardedAsWritten(Children(nom, rue, codePostal, ville, email, numero)));
            r.Keys == node.Keys + {Nom, Numero}
            && r[Nom] == nom && r[Numero] == TextValue(numero)
            && forall k :: k in node && k != Nom && k != Numero ==> r[k] == node[k]
  {
    var d := Children(nom, rue, codePostal, ville, email, numero);
    assert Nom in d && Numero in d && Adresse !in d;
    assert ForwardedAsWritten(d).Keys == {Nom, Numero};
  }

  /** An accepted edit, as written: only the trimmed name and phone number reach the node. */
  lemma AsWrittenEditStores(node: Node, f: EnterpriseForm)
    ensures var r := MergeChildren(node, ForwardedAsWritten(EditData(f)));
            r.Keys == node.Keys + {Nom, Numero}
            && r[Nom] == TextValue(Trim(f.nom)) && r[Numero] == TextValue(Trim(f.numero))
            && forall k :: k in node && k != Nom && k != Numero ==> r[k] == node[k]
  {
    var nom, numero := Trim(f.nom), Trim(f.numero);
    var rue, codePostal, ville, email := TrimOrEmpty(f.rue), TrimOrEmpty(f.codePostal), TrimOrEmpty(f.ville), Trim(f.email);
    assert EditData(f) == Children(TextValue(nom), rue, codePostal, ville, email, numero);
    AsWrittenStores(node, TextValue(nom), rue, codePostal, ville, email, numero);
  }

  /** The service's update, as written: only the stored name and phone number ("" for null) reach the node. */
  lemma AsWrittenUpdateStores(node: Node, fs: Fields)
    ensures var r := MergeChildren(node, ForwardedAsWritten(FieldsData(fs)));
            r.Keys == node.Keys + {Nom, Numero}
            && r[Nom] == OptText(fs.nom) && r[Numero] == TextValue(fs.numero.GetOr(""))
            && forall k :: k in node && k != Nom && k != Numero ==> r[k] == node[k]
  {
    AsWrittenStores(node, OptText(fs.nom), fs.rue.GetOr(""), fs.codePostal.GetOr(""), fs.ville.GetOr(""),
                    fs.email.GetOr(""), fs.numero.GetOr(""));
  }

  /** A form the handler accepts: name "A", email "@", phone "1". */
  const EXAMPLE_FORM := EnterpriseForm("A", None, None, None, "@", "1")

  lemma ExampleFormAccepted()
    ensures FormRefusalOf(EXAMPLE_FORM).None? && Trim(EXAMPLE_FORM.email) == "@"
  {
    var f := EXAMPLE_FORM;
    assert f.nom == ['A'] && f.email == ['@'] && f.numero == ['1'];
    TrimSingle('A');
    TrimSingle('@');
    TrimSingle('1');
    assert StartsWith(f.email, "@");
  }

  /** A concrete instance: the accepted example's email never reaches a node that had another one. */
  lemma EditDropsEmailExample()
    ensures FormRefusalOf(EXAMPLE_FORM).None?
    ensures var r := MergeChildren(map[Email := TextValue("old")], ForwardedAsWritten(EditData(EXAMPLE_FORM)));
            r[Email] == TextValue("old") && r[Email] != TextValue(Trim(EXAMPLE_FORM.email))
  {
    ExampleFormAccepted();
    EditDropsAddressAndEmail(map[Email := TextValue("old")], EXAMPLE_FORM);
    assert |Trim(EXAMPLE_FORM.email)| == 1;
  }

  /** A single visible character is its own trim. */
  lemma TrimSingle(c: char)
    requires c > ' '
    ensures Trim([c]) == [c]
  {
  }

  /** Merging the six children: each is what was sent, every other child stays. */
  lemma MergeChildrenOf(node: Node, nom: DbValue, rue: string, codePostal: string, ville: string,
                        email: string, numero: string)
    ensures var r := MergeChildren(node, Children(nom, rue, codePostal, ville, email, numero));
            r[Nom] == nom && r[Rue] == TextValue(rue) && r[CodePostal] == TextValue(codePostal)
            && r[Ville] == TextValue(ville) && r[Email] == TextValue(email) && r[Numero] == TextValue(numero)
            && r.Keys == node.Keys + {Nom, Rue, CodePostal, Ville, Email, Numero}
            && forall k :: k in node && k !in {Nom, Rue, CodePostal, Ville, Email, Numero} ==> r[k] == node[k]
  {
  }

  /** Corrected, every posted field is what the node holds afterwards; children outside the form stay. */
  lemma CorrectedEditStoresForm(node: Node, f: EnterpriseForm)
    ensures var r := MergeChildren(node, EditData(f));
            r[Nom] == TextValue(Trim(f.nom)) && r[Email] == TextValue(Trim(f.email))
            && r[Numero] == TextValue(Trim(f.numero)) && r[Rue] == TextValue(TrimOrEmpty(f.rue))
            && r[CodePostal] == TextValue(TrimOrEmpty(f.codePostal))
            && r[Ville] == TextValue(TrimOrEmpty(f.ville))
            && forall k :: k in node && k !in {Nom, Rue, CodePostal, Ville, Email, Numero} ==> r[k] == node[k]
  {
    MergeChildrenOf(node, TextValue(Trim(f.nom)), TrimOrEmpty(f.rue), TrimOrEmpty(f.codePostal),
                    TrimOrEmpty(f.ville), Trim(f.email), Trim(f.numero));
  }

  // ---------------------------------------------------------------------------
  // Synchronisation records (EnterpriseService.java:169-202)
  // ---------------------------------------------------------------------------

  /** A `(String)` cast: a text, a null, or a ClassCastException for any other value. */
  datatype Casted = Casted(value: Option<string>) | CastFails

  function CastText(v: DbValue): (r: Casted)
    ensures r.CastFails? <==> !(v.TextValue? || v.NullValue?)
  {
    match v
    case TextValue(s) => Casted(Some(s))
    case NullValue => Casted(None)
    case _ => CastFails
  }

  /** `map.get(key)`. */
  function Get(rec: Node, key: Key): DbValue
  {
    if key in rec then rec[key] else NullValue
  }

  /** `map.getOrDefault(key, d)`: a present key wins even when its value is null. */
  function GetOrDefault(rec: Node, key: Key, d: string): DbValue
  {
    if key in rec then rec[key] else TextValue(d)
  }

  function CastOr(rec: Node, key: Key): Casted
  {
    CastText(GetOrDefault(rec, key, ""))
  }

  const EMPTY := Casted(Some(""))

  /** The street, postcode and city of a record: new format, legacy `adresse`, or none. */
  function SyncedAddress(rec: Node): (Casted, Casted, Casted)
  {
    if Rue in rec then (CastOr(rec, Rue), CastOr(rec, CodePostal), CastOr(rec, Ville))
    else if Adresse in rec then (CastOr(rec, Adresse), EMPTY, EMPTY)
    else (EMPTY, EMPTY, EMPTY)
  }

  /** The fields of the row the sync inserts for a record; None when one of the casts throws. */
  function SyncedFields(rec: Node): Option<Fields>
  {
    var nom := CastOr(rec, Nom);
    var (rue, codePostal, ville) := SyncedAddress(rec);
    var email := CastOr(rec, Email);
    var numero := CastOr(rec, Numero);
    if nom.CastFails? || rue.CastFails? || codePostal.CastFails? || ville.CastFails?
       || email.CastFails? || numero.CastFails?
    then None
    else Some(Fields(nom.value, rue.value, codePostal.value, ville.value, email.value, numero.value))
  }

  /** A legacy record becomes a street with an empty postcode and city; a record with neither gets three "". */
  lemma SyncMigratesLegacyAddress(rec: Node)
    ensures Rue !in rec && Adresse in rec && SyncedFields(rec).Some? ==>
              SyncedFields(rec).value.rue == CastText(rec[Adresse]).value
              && SyncedFields(rec).value.codePostal == Some("") && SyncedFields(rec).value.ville == Some("")
    ensures Rue !in rec && Adresse !in rec && SyncedFields(rec).Some? ==>
              SyncedFields(rec).value.rue == Some("") && SyncedFields(rec).value.codePostal == Some("")
              && SyncedFields(rec).value.ville == Some("")
    ensures Rue in rec && SyncedFields(rec).Some? ==> SyncedFields(rec).value.rue == CastText(rec[Rue]).value
    ensures Rue !in rec && Adresse in rec && rec[Adresse].LongValue? ==> SyncedFields(rec).None?
  {
  }

  /** The map the listing hands to the sync for one enterprise row. */
  function RowRecord(r: EnterpriseRow): Node
  {
    map[EntrepriseId := TextValue(r.entrepriseId), Nom := r.nom, Rue := r.rue,
        CodePostal := r.codePostal, Ville := r.ville, Email := r.email,
        Numero := r.numero, DateCreation := r.dateCreation]
  }

  /**
   * The listing already moved a legacy `adresse` into `rue`, so every record
   * it produces carries "rue": the sync's own legacy branch is never reached
   * from the listing, and a legacy node still ends up with its address as
   * the street and an empty postcode and city.
   */
  lemma ListingMigratesBeforeSync(id: string, node: DbValue)
    ensures Rue in RowRecord(EnterpriseRowOf(id, node))
    ensures !HasChild(node, "rue") && HasChild(node, "adresse")
            && SyncedFields(RowRecord(EnterpriseRowOf(id, node))).Some? ==>
              var fs := SyncedFields(RowRecord(EnterpriseRowOf(id, node))).value;
              fs.rue == Some(ToText(Child(node, "adresse"))) && fs.codePostal == Some("") && fs.ville == Some("")
  {
    var rec := RowRecord(EnterpriseRowOf(id, node));
    EnterpriseAddress(id, node);
    assert Rue in rec;
  }

  // ---------------------------------------------------------------------------
  // The JPA table and the synchronisation as a function of it
  // ---------------------------------------------------------------------------

  /** A JPA row; the generated id is its key in the table. */
  datatype Enterprise = Enterprise(
    fields: Fields, firebaseId: Option<string>, dateCreation: Option<int>, dateModification: Option<int>)

  type Table = map<int, Enterprise>

  /** `findByFirebaseId(id).isPresent()`. */
  predicate HasFirebaseId(rows: Table, fid: Option<string>)
  {
    exists id :: id in rows && rows[id].firebaseId == fid
  }

  /** The table and the next identity value. */
  datatype SyncState = SyncState(rows: Table, nextId: int)

  /** One iteration of the loop; None stands for a cast that throws. */
  function SyncStep(s: SyncState, rec: Node, now: int): Option<SyncState>
  {
    var fid := CastText(Get(rec, EntrepriseId));
    if fid.CastFails? then None
    else if HasFirebaseId(s.rows, fid.value) then Some(s)
    else
      var fs := SyncedFields(rec);
      if fs.None? then None
      else Some(SyncState(s.rows[s.nextId := Enterprise(fs.value, fid.value, Some(now), Some(now))], s.nextId + 1))
  }

  /** The loop over all records; a failure anywhere rolls the transaction back, so it yields None. */
  function SyncAll(s: SyncState, recs: seq<Node>, now: int): Option<SyncState>
    decreases |recs|
  {
    if recs == [] then Some(s)
    else
      var prev := SyncAll(s, recs[..|recs| - 1], now);
      if prev.None? then None else SyncStep(prev.value, recs[|recs| - 1], now)
  }

  /** The Firebase id a record carries, when its cast succeeds. */
  predicate IdPresent(rows: Table, rec: Node)
  {
    var fid := CastText(Get(rec, EntrepriseId));
    fid.Casted? && HasFirebaseId(rows, fid.value)
  }

  /** Ids below `nextId`, rows kept: the table only grows. */
  predicate Grows(s: SyncState, t: SyncState)
  {
    s.nextId <= t.nextId
    && (forall id :: id in s.rows ==> id in t.rows && t.rows[id] == s.rows[id])
    && (forall id :: id in t.rows && id !in s.rows ==> s.nextId <= id < t.nextId)
  }

  predicate IdsBelow(s: SyncState)
  {
    forall id :: id in s.rows ==> id < s.nextId
  }

  lemma StepGrows(s: SyncState, rec: Node, now: int)
    requires IdsBelow(s)
    requires SyncStep(s, rec, now).Some?
    ensures Grows(s, SyncStep(s, rec, now).value) && IdsBelow(SyncStep(s, rec, now).value)
    ensures IdPresent(SyncStep(s, rec, now).value.rows, rec)
  {
    var t := SyncStep(s, rec, now).value;
    var fid := CastText(Get(rec, EntrepriseId));
    if !HasFirebaseId(s.rows, fid.value) {
      assert t.rows[s.nextId].firebaseId == fid.value;
    }
  }

  /**
   * A successful run only inserts: existing rows are untouched, new rows
   * take fresh ids, and every record's Firebase id is present afterwards.
   */
  lemma {:induction false} SyncOnlyInserts(s: SyncState, recs: seq<Node>, now: int)
    requires IdsBelow(s)
    requires SyncAll(s, recs, now).Some?
    ensures Grows(s, SyncAll(s, recs, now).value) && IdsBelow(SyncAll(s, recs, now).value)
    ensures forall i :: 0 <= i < |recs| ==> IdPresent(SyncAll(s, recs, now).value.rows, recs[i])
    decreases |recs|
  {
    if recs != [] {
      var n := |recs| - 1;
      SyncOnlyInserts(s, recs[..n], now);
      var p := SyncAll(s, recs[..n], now).value;
      var t := SyncAll(s, recs, now).value;
      StepGrows(p, recs[n], now);
      forall i | 0 <= i < |recs|
        ensures IdPresent(t.rows, recs[i])
      {
        if i < n {
          assert recs[i] == recs[..n][i];
          var fid := CastText(Get(recs[i], EntrepriseId));
          var id :| id in p.rows && p.rows[id].firebaseId == fid.value;
          assert id in t.rows && t.rows[id].firebaseId == fid.value;
        }
      }
    }
  }

  /** When every record's id is already in the table, the run changes nothing. */
  lemma {:induction false} SyncOfPresentIsNoOp(s: SyncState, recs: seq<Node>, now: int)
    requires forall i :: 0 <= i < |recs| ==> IdPresent(s.rows, recs[i])
    ensures SyncAll(s, recs, now) == Some(s)
    decreases |recs|
  {
    if recs != [] {
      var n := |recs| - 1;
      assert forall i :: 0 <= i < n ==> recs[..n][i] == recs[i];
      SyncOfPresentIsNoOp(s, recs[..n], now);
      assert IdPresent(s.rows, recs[n]);
    }
  }

  /** A second run over the same records, at any instant, creates nothing. */
  lemma SyncIdempotent(s: SyncState, recs: seq<Node>, now: int, later: int)
    requires IdsBelow(s)
    requires SyncAll(s, recs, now).Some?
    ensures SyncAll(SyncAll(s, recs, now).value, recs, later) == SyncAll(s, recs, now)
  {
    SyncOnlyInserts(s, recs, now);
    SyncOfPresentIsNoOp(SyncAll(s, recs, now).value, recs, later);
  }

  // ---------------------------------------------------------------------------
  // The service and the edit handler on the two stores
  // ---------------------------------------------------------------------------

  /** Whether the service mirrors a row to the database: a non-null, non-empty Firebase id. */
  predicate Mirrored(fid: Option<string>)
  {
    fid.Some? && fid.value != ""
  }

  /** The node `initializeEnterpriseStructure` writes: the six fields and the creation instant. */
  function CreatedNode(fs: Fields, nowMillis: int): (r: Node)
    ensures forall k :: k in FieldsData(fs) ==> k in r && r[k] == FieldsData(fs)[k]
    ensures DateCreation in r && r[DateCreation] == LongValue(nowMillis)
  {
    FieldsData(fs)[DateCreation := LongValue(nowMillis)]
  }

  /** `child(key).updateChildren(data)` on the `entreprises/` nodes; a missing node is created. */
  function Merged(nodes: map<string, Node>, key: string, data: Node): map<string, Node>
  {
    nodes[key := MergeChildren(if key in nodes then nodes[key] else map[], data)]
  }

  datatype EditOutcome = Refused(reason: FormRefusal) | EditFailed | Edited

  /** The edit handler's answer: the first failing check, else whether the database write went through. */
  function EditOutcomeOf(f: EnterpriseForm, ok: bool): EditOutcome
  {
    var refusal := FormRefusalOf(f);
    if refusal.Some? then Refused(refusal.value)
    else if !ok then EditFailed
    else Edited
  }

  /** A refused form reports its first failing check; an accepted one is written exactly when the write succeeds. */
  lemma EditOutcomeRule(f: EnterpriseForm, ok: bool)
    ensures EditOutcomeOf(f, ok) == Edited <==> FormRefusalOf(f).None? && ok
    ensures FormRefusalOf(f).Some? ==> EditOutcomeOf(f, ok) == Refused(FormRefusalOf(f).value)
  {
  }

  /**
   * The JPA table, its identity counter, and the `entreprises/` nodes of the
   * realtime database by key.
   */
  class EnterpriseStore {
    var rows: Table
    var nextId: int
    var firebase: map<string, Node>

    ghost predicate Valid()
      reads this
    {
      IdsBelow(SyncState(rows, nextId))
    }

    constructor()
      ensures Valid() && rows == map[] && firebase == map[]
    {
      rows := map[];
      nextId := 1;
      firebase := map[];
    }

    /**
     * `createEnterprise`: the row is always saved; `written` is the key of a
     * successful database write (None when it threw), and only then does the
     * row get its Firebase id.
     */
    method Create(fs: Fields, written: Option<string>, now: int, nowMillis: int) returns (id: int)
      requires Valid()
      modifies this
      ensures Valid()
      ensures id == old(nextId) && id !in old(rows) && nextId == old(nextId) + 1
      ensures rows == old(rows)[id := Enterprise(fs, written, Some(now), Some(now))]
      ensures written.Some? ==> firebase == old(firebase)[written.value := CreatedNode(fs, nowMillis)]
      ensures written.None? ==> firebase == old(firebase)
    {
      id := nextId;
      rows := rows[id := Enterprise(fs, None, Some(now), Some(now))];
      nextId := nextId + 1;
      if written.Some? {
        firebase := firebase[written.value := CreatedNode(fs, nowMillis)];
        rows := rows[id := rows[id].(firebaseId := written)];
      }
    }

    /**
     * `updateEnterprise`: an unknown id throws and changes nothing; otherwise
     * the six fields and the modification instant are saved, and the node is
     * updated only for a mirrored row whose push succeeds (`pushOk`), with
     * what the database service forwards of the six children.
     * `AsWrittenUpdateStores` spells out what the node then holds.
     */
    method Update(id: int, details: Fields, pushOk: bool, now: int) returns (r: Result<Enterprise>)
      requires Valid()
      modifies this
      ensures Valid() && nextId == old(nextId)
      ensures id !in old(rows) ==> r.Err? && rows == old(rows) && firebase == old(firebase)
      ensures id in old(rows) ==>
                r == Ok(old(rows)[id].(fields := details, dateModification := Some(now)))
                && rows == old(rows)[id := r.value]
      ensures id in old(rows) && Mirrored(old(rows)[id].firebaseId) && pushOk ==>
                var fid := old(rows)[id].firebaseId.value;
                firebase == Merged(old(firebase), fid, ForwardedAsWritten(FieldsData(details)))
      ensures !(id in old(rows) && Mirrored(old(rows)[id].firebaseId) && pushOk) ==> firebase == old(firebase)
    {
      if id !in rows {
        return Err("Entreprise non trouvée");
      }
      var e := rows[id].(fields := details, dateModification := Some(now));
      rows := rows[id := e];
      if Mirrored(e.firebaseId) && pushOk {
        var fid := e.firebaseId.value;
        firebase := Merged(firebase, fid, ForwardedAsWritten(FieldsData(details)));
      }
      r := Ok(e);
    }

    /**
     * `deleteEnterprise`: an unknown id throws; otherwise the node of a
     * mirrored row goes if the database delete succeeds (`removeOk`), and
     * the row goes in every case.
     */
    method Delete(id: int, removeOk: bool) returns (r: Result<()>)
      requires Valid()
      modifies this
      ensures Valid() && nextId == old(nextId)
      ensures id !in old(rows) ==> r.Err? && rows == old(rows) && firebase == old(firebase)
      ensures id in old(rows) ==> r.Ok? && rows == old(rows) - {id} && id !in rows
      ensures id in old(rows) && Mirrored(old(rows)[id].firebaseId) && removeOk ==>
                firebase == old(firebase) - {old(rows)[id].firebaseId.value}
      ensures !(id in old(rows) && Mirrored(old(rows)[id].firebaseId) && removeOk) ==> firebase == old(firebase)
    {
      if id !in rows {
        return Err("Entreprise non trouvée");
      }
      var fid := rows[id].firebaseId;
      if Mirrored(fid) && removeOk {
        firebase := firebase - {fid.value};
      }
      rows := rows - {id};
      r := Ok(());
    }

    /**
     * The edit handler: a refused form changes nothing; otherwise the node
     * with that key gets what the database service forwards of the trimmed
     * fields, unless the write fails (`ok`). `AsWrittenEditStores` spells out
     * what the node then holds.
     */
    method EditInDatabase(key: string, f: EnterpriseForm, ok: bool) returns (r: EditOutcome)
      modifies this`firebase
      ensures r == EditOutcomeOf(f, ok)
      ensures r.Edited? ==> firebase == Merged(old(firebase), key, ForwardedAsWritten(EditData(f)))
      ensures !r.Edited? ==> firebase == old(firebase)
    {
      r := EditOutcomeOf(f, ok);
      if r.Edited? {
        firebase := Merged(firebase, key, ForwardedAsWritten(EditData(f)));
      }
    }

    /**
     * `synchronizeFromFirebase` over the listing's records: rows are
     * inserted for ids not yet in the table; a failing cast rolls the whole
     * transaction back.
     */
    method Sync(recs: seq<Node>, now: int) returns (ok: bool)
      requires Valid()
      modifies this
      ensures Valid() && firebase == old(firebase)
      ensures var s := SyncAll(SyncState(old(rows), old(nextId)), recs, now);
              ok == s.Some? && (ok ==> rows == s.value.rows && nextId == s.value.nextId)
              && (!ok ==> rows == old(rows) && nextId == old(nextId))
    {
      var table := rows;
      var next := nextId;
      var i := 0;
      while i < |recs|
        invariant 0 <= i <= |recs|
        invariant rows == old(rows) && nextId == old(nextId) && firebase == old(firebase)
        invariant SyncAll(SyncState(rows, nextId), recs[..i], now) == Some(SyncState(table, next))
      {
        var rec := recs[i];
        SyncPrefixStep(SyncState(rows, nextId), recs, i, now);
        var fid := CastText(Get(rec, EntrepriseId));
        if fid.CastFails? {
          SyncFailurePersists(SyncState(rows, nextId), recs, i + 1, now);
          return false;
        }
        if !(exists id :: id in table && table[id].firebaseId == fid.value) {
          var fs := SyncedFields(rec);
          if fs.None? {
            SyncFailurePersists(SyncState(rows, nextId), recs, i + 1, now);
            return false;
          }
          table := table[next := Enterprise(fs.value, fid.value, Some(now), Some(now))];
          next := next + 1;
        }
        i := i + 1;
      }
      assert recs[..i] == recs;
      SyncOnlyInserts(SyncState(rows, nextId), recs, now);
      rows, nextId := table, next;
      ok := true;
    }
  }

  /** One more record: the run over the longer prefix is the step after the run over the shorter one. */
  lemma SyncPrefixStep(s: SyncState, recs: seq<Node>, i: int, now: int)
    requires 0 <= i < |recs|
    ensures SyncAll(s, recs[..i + 1], now)
            == var p := SyncAll(s, recs[..i], now); if p.None? then None else SyncStep(p.value, recs[i], now)
  {
    assert recs[..i + 1][..i] == recs[..i];
  }

  /** Once a prefix fails, the whole run fails. */
  lemma {:induction false} SyncFailurePersists(s: SyncState, recs: seq<Node>, i: nat, now: int)
    requires i <= |recs|
    requires SyncAll(s, recs[..i], now).None?
    ensures SyncAll(s, recs, now).None?
    decreases |recs| - i
  {
    if i < |recs| {
      assert recs[..i + 1][..i] == recs[..i];
      SyncFailurePersists(s, recs, i + 1, now);
    } else {
      assert recs[..i] == recs;
    }
  }
}
