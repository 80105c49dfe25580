/**
 * The machine fleet: the `Machine` entity with its defaulting getters and
 * null-safe setters, the `MachineForm` converter, and the rules the machine
 * controller applies to it (type selection, create checks, state
 * normalisation, custom fields, the list filter, backup counts, breakdown
 * detection and backup promotion).
 *
 * A machine is a value here: every handler modelled reads machines, changes
 * some fields, and writes them back to the store, which is a map from
 * machine id to machine.
 */
module Machines {
  import opened Base
  import opened JavaStrings

  /**
   * `Machine.java`. Boxed fields are optional; the photo list and the custom
   * field map can never be null (their setters replace null by an empty
   * collection), so they are plain values.
   */
  datatype Machine = Machine(
    machineId: Option<string>, entrepriseId: Option<string>,
    nom: Option<string>, numeroSerie: Option<string>, photos: seq<string>,
    emplacement: Option<string>, notes: Option<string>,
    dateCreation: Option<int>, dateMiseAJour: Option<int>,
    categoryId: Option<int>, categoryName: Option<string>, categoryDescription: Option<string>,
    operationnel: Option<bool>, enReparation: Option<bool>, enProgrammation: Option<bool>,
    adresseIP: Option<string>, machinePrincipaleId: Option<string>,
    estMachineSecours: Option<bool>, estMachineEntrepot: Option<bool>,
    creePar: Option<string>, creeLe: Option<int>, modifiePar: Option<string>, modifieLe: Option<int>,
    supprimePar: Option<string>, supprimeLe: Option<int>,
    supprime: Option<bool>, champsPersonnalises: map<string, DbValue>)
  {
    /** `getOperationnel()`: operational unless told otherwise. */
    predicate Operationnel() { operationnel.GetOr(true) }

    predicate EnReparation() { enReparation.GetOr(false) }

    predicate EnProgrammation() { enProgrammation.GetOr(false) }

    predicate EstSecours() { estMachineSecours.GetOr(false) }

    predicate EstEntrepot() { estMachineEntrepot.GetOr(false) }

    predicate Supprime() { supprime.GetOr(false) }

    /** `setPhotos`: null stores an empty list. */
    function WithPhotos(p: Option<seq<string>>): (m: Machine)
      ensures m.photos == (if p.Some? then p.value else [])
      ensures m.(photos := photos) == this
    {
      this.(photos := if p.Some? then p.value else [])
    }

    /** `setChampsPersonnalises`: null stores an empty map. */
    function WithChamps(c: Option<map<string, DbValue>>): (m: Machine)
      ensures m.champsPersonnalises == (if c.Some? then c.value else map[])
      ensures m.(champsPersonnalises := champsPersonnalises) == this
    {
      this.(champsPersonnalises := if c.Some? then c.value else map[])
    }
  }

  /** `new Machine()`: every field unset, no photos, no custom fields. */
  function NewMachine(): (m: Machine)
    ensures m.Operationnel() && !m.EnReparation() && !m.EnProgrammation()
    ensures !m.EstSecours() && !m.EstEntrepot() && !m.Supprime()
    ensures m.photos == [] && m.champsPersonnalises == map[]
  {
    Machine(None, None, None, None, [], None, None, None, None, None, None, None,
            None, None, None, None, None, None, None,
            None, None, None, None, None, None, None, map[])
  }

  /** `equals`: two machines are equal when their ids are (both null counts as equal). */
  predicate SameMachine(a: Machine, b: Machine)
  {
    a.machineId == b.machineId
  }

  /** `hashCode`: `Objects.hash(machineId)`, that is `31 + machineId.hashCode()` in 32-bit arithmetic. */
  function MachineHash(m: Machine): (h: int)
    ensures IsInt32(h)
  {
    ObjectsHash(m.machineId)
  }

  /** Equal machines have equal hashes, whatever their other fields. */
  lemma HashAgreesWithEquals(a: Machine, b: Machine)
    requires SameMachine(a, b)
    ensures MachineHash(a) == MachineHash(b)
  {
  }

  /** Equality ignores every field but the id: a machine equals any copy of it with other flags. */
  lemma EqualityIsIdentity(m: Machine, op: Option<bool>, rep: Option<bool>)
    ensures SameMachine(m, m.(operationnel := op, enReparation := rep))
    ensures forall n: Machine :: SameMachine(m, n) <==> n.machineId == m.machineId
  {
  }

  // ---------------------------------------------------------------------------
  // MachineForm
  // ---------------------------------------------------------------------------

  /** `MachineForm.java`: the fields it declares. */
  datatype MachineForm = MachineForm(
    entrepriseId: Option<string>, nom: Option<string>, numeroSerie: Option<string>,
    emplacement: Option<string>, notes: Option<string>, existingPhotos: seq<string>)

  /** `toMachine`: trimmed texts (null as ""), a copy of the photo list, every other field unset. */
  function ToMachine(f: MachineForm): (m: Machine)
    ensures m.nom == Some(TrimOrEmpty(f.nom)) && m.numeroSerie == Some(TrimOrEmpty(f.numeroSerie))
    ensures m.emplacement == Some(TrimOrEmpty(f.emplacement)) && m.notes == Some(TrimOrEmpty(f.notes))
    ensures m.photos == f.existingPhotos
    ensures m.(nom := None, numeroSerie := None, emplacement := None, notes := None, photos := []) == NewMachine()
  {
    NewMachine().(nom := Some(TrimOrEmpty(f.nom)), numeroSerie := Some(TrimOrEmpty(f.numeroSerie)),
                  emplacement := Some(TrimOrEmpty(f.emplacement)), notes := Some(TrimOrEmpty(f.notes)))
      .WithPhotos(Some(f.existingPhotos))
  }

  /** `setExistingPhotos`: null gives an empty list, anything else is copied. */
  function SetExistingPhotos(f: MachineForm, p: Option<seq<string>>): (g: MachineForm)
    ensures g.existingPhotos == (if p.Some? then p.value else [])
    ensures g.(existingPhotos := f.existingPhotos) == f
  {
    f.(existingPhotos := if p.Some? then p.value else [])
  }

  /** The machine built from a form never carries the enterprise id: it is set by the store. */
  lemma ToMachineLeavesEnterpriseUnset(f: MachineForm)
    ensures ToMachine(f).entrepriseId.None? && ToMachine(f).machineId.None?
    ensures ToMachine(f).Operationnel() && !ToMachine(f).EnReparation() && !ToMachine(f).EstEntrepot()
  {
  }

  // ---------------------------------------------------------------------------
  // applyMachineTypeSelection (MachineController.java:1795-1817)
  // ---------------------------------------------------------------------------

  /** The form's type fields, which the controller reads and writes. */
  datatype TypeFields = TypeFields(estSecours: Option<bool>, estEntrepot: Option<bool>, principaleId: Option<string>)

  function ApplyMachineTypeSelection(f: TypeFields, selection: Option<string>): TypeFields
  {
    if !HasTextOpt(selection) then f
    else
      var normalized := ToLower(Trim(selection.value));
      if normalized == "secours" then f.(estSecours := Some(true), estEntrepot := Some(false))
      else if normalized == "entrepot" then TypeFields(Some(false), Some(true), None)
      else TypeFields(Some(false), Some(false), None)
  }

  /** The three outcomes of the selection, and the blank case that leaves the form alone. */
  lemma TypeSelectionCases(f: TypeFields, selection: Option<string>)
    ensures !HasTextOpt(selection) ==> ApplyMachineTypeSelection(f, selection) == f
    ensures HasTextOpt(selection) && ToLower(Trim(selection.value)) == "secours" ==>
              ApplyMachineTypeSelection(f, selection) == TypeFields(Some(true), Some(false), f.principaleId)
    ensures HasTextOpt(selection) && ToLower(Trim(selection.value)) == "entrepot" ==>
              ApplyMachineTypeSelection(f, selection) == TypeFields(Some(false), Some(true), None)
    ensures HasTextOpt(selection) && ToLower(Trim(selection.value)) != "secours"
            && ToLower(Trim(selection.value)) != "entrepot" ==>
              ApplyMachineTypeSelection(f, selection) == TypeFields(Some(false), Some(false), None)
  {
  }

  /** After a non-blank selection the form is never both a backup and a warehouse machine. */
  lemma TypeSelectionExclusive(f: TypeFields, selection: Option<string>)
    requires HasTextOpt(selection)
    ensures var g := ApplyMachineTypeSelection(f, selection);
            g.estSecours.Some? && g.estEntrepot.Some? && !(g.estSecours.value && g.estEntrepot.value)
            && (g.estSecours.value || g.principaleId.None?)
  {
  }

  // ---------------------------------------------------------------------------
  // Create: checks (MachineController.java:1056-1071) and normalisation (1082-1101)
  // ---------------------------------------------------------------------------

  /** Why the create handler refuses a machine. */
  datatype CreateRefusal =
    | WarehouseWithIp       // a warehouse machine must not have an IP address
    | WarehouseWithoutSerial  // a warehouse machine needs a serial number
    | NoSerialNorIp         // any other machine needs a serial number or an IP address

  datatype Check = Accepted | Rejected(reason: CreateRefusal)

  /** The message the form shows for each refusal. */
  function CreateMessage(r: CreateRefusal): string
  {
    match r
    case WarehouseWithIp =>
      "Cette machine possède une adresse IP. Veuillez la reclasser en principale ou secours avant d'enregistrer."
    case WarehouseWithoutSerial => "Pour un matériel neuf, le numéro de série est obligatoire."
    case NoSerialNorIp => "Veuillez renseigner au moins le numéro de série ou l'adresse IP."
  }

  /** The three serial/IP checks of the create handler, in their order. */
  function CreateCheck(estEntrepot: Option<bool>, numeroSerie: Option<string>, adresseIP: Option<string>): (c: Check)
    ensures c.Accepted? <==>
              if estEntrepot.GetOr(false) then !HasTextOpt(adresseIP) && HasTextOpt(numeroSerie)
              else HasTextOpt(numeroSerie) || HasTextOpt(adresseIP)
  {
    var entrepot := estEntrepot.GetOr(false);
    if entrepot && HasTextOpt(adresseIP) then Rejected(WarehouseWithIp)
    else if entrepot && !HasTextOpt(numeroSerie) then Rejected(WarehouseWithoutSerial)
    else if !entrepot && !HasTextOpt(numeroSerie) && !HasTextOpt(adresseIP) then Rejected(NoSerialNorIp)
    else Accepted
  }

  /** Which refusal applies: a warehouse machine is refused for its IP before its serial is looked at. */
  lemma CreateCheckReasons(estEntrepot: Option<bool>, numeroSerie: Option<string>, adresseIP: Option<string>)
    ensures estEntrepot.GetOr(false) && HasTextOpt(adresseIP) ==>
              CreateCheck(estEntrepot, numeroSerie, adresseIP) == Rejected(WarehouseWithIp)
    ensures CreateCheck(estEntrepot, numeroSerie, adresseIP) == Rejected(WarehouseWithoutSerial) ==>
              estEntrepot.GetOr(false) && !HasTextOpt(numeroSerie)
    ensures CreateCheck(estEntrepot, numeroSerie, adresseIP) == Rejected(NoSerialNorIp) <==>
              !estEntrepot.GetOr(false) && !HasTextOpt(numeroSerie) && !HasTextOpt(adresseIP)
  {
  }

  /** The state a created machine is saved with. */
  function NormaliseCreated(m: Machine, estEntrepot: bool): (r: Machine)
    ensures estEntrepot ==> !r.Operationnel() && r.EnProgrammation() && !r.EnReparation()
                            && !r.EstSecours() && r.machinePrincipaleId.None?
    ensures !estEntrepot ==> !r.EnProgrammation() && (!r.Operationnel() <==> r.EnReparation())
    ensures !estEntrepot ==> (r.EnReparation() <==> m.EnReparation() || !m.Operationnel())
    ensures !r.Supprime()
    ensures r.(operationnel := m.operationnel, enReparation := m.enReparation, enProgrammation := m.enProgrammation,
               estMachineSecours := m.estMachineSecours, machinePrincipaleId := m.machinePrincipaleId,
               supprime := m.supprime) == m
  {
    var s :=
      if estEntrepot then
        m.(operationnel := Some(false), enProgrammation := Some(true), enReparation := Some(false),
           estMachineSecours := Some(false), machinePrincipaleId := None)
      else
        var a := m.(enProgrammation := Some(false));
        var b := if !a.Operationnel() then a.(enReparation := Some(true)) else a;
        if b.EnReparation() then b.(operationnel := Some(false)) else b;
    s.(supprime := Some(false))
  }

  // ---------------------------------------------------------------------------
  // Update: state normalisation (MachineController.java:1440-1499)
  // ---------------------------------------------------------------------------

  /**
   * The flag rules of the update handler: the warehouse reset or the
   * out-of-warehouse defaults, the operational/repair coupling, the leaving
   * of the warehouse, and the repaired machine that becomes a backup.
   * `currentEntrepot` is the flag on the machine rebuilt from the form,
   * `formEntrepot` the one the form asks for.
   */
  function NormaliseUpdated(m: Machine, existing: Option<Machine>, currentEntrepot: bool, formEntrepot: bool): Machine
  {
    var a :=
      if currentEntrepot then
        m.(enProgrammation := Some(true), operationnel := Some(false), enReparation := Some(false),
           estMachineSecours := Some(false), machinePrincipaleId := None)
      else m.(enProgrammation := Some(false));
    var b :=
      if currentEntrepot then a
      else
        var a1 := if !a.Operationnel() then a.(enReparation := Some(true)) else a;
        if a1.EnReparation() then a1.(operationnel := Some(false)) else a1;
    if existing.None? then b
    else
      var prior := existing.value;
      var c :=
        if prior.EstEntrepot() && !formEntrepot then
          b.(enProgrammation := Some(false), operationnel := Some(true), enReparation := Some(false))
        else if formEntrepot then b.(estMachineSecours := Some(false), machinePrincipaleId := None)
        else b;
      if formEntrepot then c
      else if prior.EnReparation() && c.Operationnel() && !c.EnReparation() then
        c.(estMachineSecours := Some(true), enReparation := Some(false))
      else if c.EnReparation() then
        c.(operationnel := Some(false), estMachineSecours := Some(false), machinePrincipaleId := None)
      else c
  }

  /**
   * Outside the warehouse, an updated machine is in repair exactly when it is
   * not operational, and once the stored machine is known, a machine in
   * repair is never attached as a backup.
   */
  lemma UpdateCouplesRepair(m: Machine, existing: Option<Machine>)
    ensures var r := NormaliseUpdated(m, existing, false, false);
            (!r.Operationnel() <==> r.EnReparation())
            && (existing.Some? && r.EnReparation() ==> !r.EstSecours() && r.machinePrincipaleId.None?)
            && !r.EnProgrammation()
  {
  }

  /** A machine that was in repair and comes back operational is turned into a backup. */
  lemma RepairedMachineBecomesBackup(m: Machine, prior: Machine)
    requires !prior.EstEntrepot() && prior.EnReparation()
    requires m.Operationnel() && !m.EnReparation()
    ensures var r := NormaliseUpdated(m, Some(prior), false, false);
            r.EstSecours() && r.Operationnel() && !r.EnReparation()
  {
  }

  /** A machine leaving the warehouse comes out operational, not in repair, no longer programmed. */
  lemma LeavingWarehouse(m: Machine, prior: Machine)
    requires prior.EstEntrepot()
    ensures var r := NormaliseUpdated(m, Some(prior), false, false);
            r.Operationnel() && !r.EnReparation() && !r.EnProgrammation()
  {
  }

  // ---------------------------------------------------------------------------
  // Custom fields (MachineController.java:1104-1117)
  // ---------------------------------------------------------------------------

  predicate IsFieldNameChar(c: char)
  {
    'a' <= c <= 'z' || '0' <= c <= '9' || c == '_'
  }

  /** `replaceAll("[^a-z0-9_]", "_")`, character by character. */
  function ReplaceOutsideFieldChars(s: string): (r: string)
    ensures |r| == |s|
    ensures forall k :: 0 <= k < |s| ==> r[k] == (if IsFieldNameChar(s[k]) then s[k] else '_')
    decreases |s|
  {
    if s == [] then [] else [if IsFieldNameChar(s[0]) then s[0] else '_'] + ReplaceOutsideFieldChars(s[1..])
  }

  /** `name.trim().toLowerCase().replaceAll("[^a-z0-9_]", "_")`. */
  function SanitiseFieldName(name: string): string
  {
    ReplaceOutsideFieldChars(ToLower(Trim(name)))
  }

  /** A sanitised name is as long as the trimmed name and uses only `a-z`, `0-9` and `_`. */
  lemma SanitisedChars(name: string)
    ensures |SanitiseFieldName(name)| == |Trim(name)|
    ensures forall k :: 0 <= k < |SanitiseFieldName(name)| ==> IsFieldNameChar(SanitiseFieldName(name)[k])
  {
  }

  /** Text made of field-name characters is left alone by each step of the sanitising. */
  lemma FieldNameCharsAreFixed(r: string)
    requires forall k :: 0 <= k < |r| ==> IsFieldNameChar(r[k])
    ensures Trim(r) == r && ToLower(r) == r && ReplaceOutsideFieldChars(r) == r
  {
    if r != [] {
      assert IsFieldNameChar(r[0]) && IsFieldNameChar(r[|r| - 1]);
    }
    TrimNoop(r);
    FieldNameCharsLower(r);
    FieldNameCharsKept(r);
  }

  lemma FieldNameCharsLower(r: string)
    requires forall k :: 0 <= k < |r| ==> IsFieldNameChar(r[k])
    ensures ToLower(r) == r
  {
    assert forall k :: 0 <= k < |r| ==> ToLower(r)[k] == r[k];
  }

  lemma FieldNameCharsKept(r: string)
    requires forall k :: 0 <= k < |r| ==> IsFieldNameChar(r[k])
    ensures ReplaceOutsideFieldChars(r) == r
  {
    assert forall k :: 0 <= k < |r| ==> ReplaceOutsideFieldChars(r)[k] == r[k];
  }

  /** A sanitised name is its own sanitised form. */
  lemma SanitiseIdempotent(name: string)
    ensures SanitiseFieldName(SanitiseFieldName(name)) == SanitiseFieldName(name)
  {
    SanitisedChars(name);
    FieldNameCharsAreFixed(SanitiseFieldName(name));
  }

  /**
   * The custom-field map built from the name and value arrays: each pair with
   * text in both stores its trimmed value under the sanitised name, a later
   * pair overwriting an earlier one with the same key.
   */
  function CustomFields(names: seq<string>, values: seq<string>): map<string, DbValue>
    requires |names| == |values|
    decreases |names|
  {
    if names == [] then map[]
    else
      var n := |names| - 1;
      AddPair(CustomFields(names[..n], values[..n]), names[n], values[n])
  }

  /** One pair of the loop: stored under its sanitised name when both name and value have text. */
  function AddPair(champs: map<string, DbValue>, name: string, value: string): map<string, DbValue>
  {
    if HasText(name) && HasText(value) then champs[SanitiseFieldName(name) := TextValue(Trim(value))] else champs
  }

  /** A key either is the pair's own, holding its trimmed value, or was there before, unchanged. */
  lemma AddPairKey(champs: map<string, DbValue>, name: string, value: string, k: string)
    ensures k in AddPair(champs, name, value) <==>
              (HasText(name) && HasText(value) && SanitiseFieldName(name) == k) || k in champs
    ensures HasText(name) && HasText(value) && SanitiseFieldName(name) == k ==>
              AddPair(champs, name, value)[k] == TextValue(Trim(value))
    ensures !(HasText(name) && HasText(value) && SanitiseFieldName(name) == k) && k in champs ==>
              AddPair(champs, name, value)[k] == champs[k]
  {
  }

  /** Pair `i` survives the checks and is stored under key `k`. */
  predicate PairGivesKey(names: seq<string>, values: seq<string>, i: int, k: string)
    requires |names| == |values|
  {
    0 <= i < |names| && HasText(names[i]) && HasText(values[i]) && SanitiseFieldName(names[i]) == k
  }

  /** One more pair: the map of the longer prefix is the previous map with that pair applied. */
  lemma CustomFieldsStep(names: seq<string>, values: seq<string>, i: int)
    requires |names| == |values| && 0 <= i < |names|
    ensures CustomFields(names[..i + 1], values[..i + 1]) == AddPair(CustomFields(names[..i], values[..i]), names[i], values[i])
  {
    assert names[..i + 1][..i] == names[..i] && values[..i + 1][..i] == values[..i];
  }

  /** Every surviving pair leaves its sanitised name as a key. */
  lemma {:induction false} CustomFieldsHasKey(names: seq<string>, values: seq<string>, i: int, k: string)
    requires |names| == |values| && PairGivesKey(names, values, i, k)
    ensures k in CustomFields(names, values)
    decreases |names|
  {
    var n := |names| - 1;
    AddPairKey(CustomFields(names[..n], values[..n]), names[n], values[n], k);
    if i < n {
      assert names[..n][i] == names[i] && values[..n][i] == values[i];
      assert PairGivesKey(names[..n], values[..n], i, k);
      CustomFieldsHasKey(names[..n], values[..n], i, k);
    }
  }

  /** Every key comes from a surviving pair, and holds that pair's trimmed value. */
  lemma {:induction false} CustomFieldsKeyOrigin(names: seq<string>, values: seq<string>, k: string)
    requires |names| == |values| && k in CustomFields(names, values)
    ensures exists i :: PairGivesKey(names, values, i, k) && CustomFields(names, values)[k] == TextValue(Trim(values[i]))
    decreases |names|
  {
    var n := |names| - 1;
    var prev := CustomFields(names[..n], values[..n]);
    AddPairKey(prev, names[n], values[n], k);
    if PairGivesKey(names, values, n, k) {
      assert CustomFields(names, values)[k] == TextValue(Trim(values[n]));
    } else {
      CustomFieldsKeyOrigin(names[..n], values[..n], k);
      var i :| PairGivesKey(names[..n], values[..n], i, k) && prev[k] == TextValue(Trim(values[..n][i]));
      assert names[..n][i] == names[i] && values[..n][i] == values[i];
      assert PairGivesKey(names, values, i, k);
    }
  }

  /** The keys are exactly the sanitised names of the pairs whose name and value both have text. */
  lemma CustomFieldsKeys(names: seq<string>, values: seq<string>)
    requires |names| == |values|
    ensures forall k :: k in CustomFields(names, values) <==> exists i :: PairGivesKey(names, values, i, k)
  {
    forall k | k in CustomFields(names, values)
      ensures exists i :: PairGivesKey(names, values, i, k)
    {
      CustomFieldsKeyOrigin(names, values, k);
    }
    forall k, i | PairGivesKey(names, values, i, k)
      ensures k in CustomFields(names, values)
    {
      CustomFieldsHasKey(names, values, i, k);
    }
  }

  /** The loop of the create handler that fills the custom-field map. */
  method BuildCustomFields(names: seq<string>, values: seq<string>) returns (champs: map<string, DbValue>)
    requires |names| == |values|
    ensures champs == CustomFields(names, values)
  {
    champs := map[];
    var i := 0;
    while i < |names|
      invariant 0 <= i <= |names|
      invariant champs == CustomFields(names[..i], values[..i])
    {
      CustomFieldsStep(names, values, i);
      if HasText(names[i]) && HasText(values[i]) {
        var fieldName := SanitiseFieldName(names[i]);
        champs := champs[fieldName := TextValue(Trim(values[i]))];
      }
      i := i + 1;
    }
    assert names[..i] == names && values[..i] == values;
  }

  /** Whether the create handler replaces the custom fields: both arrays, equal lengths, at least one pair kept. */
  predicate ReplacesCustomFields(names: Option<seq<string>>, values: Option<seq<string>>)
  {
    names.Some? && values.Some? && |names.value| == |values.value|
    && CustomFields(names.value, values.value) != map[]
  }

  /** Create: the map is replaced when `ReplacesCustomFields` holds; otherwise the machine keeps the one it had. */
  method ApplyCustomFieldsOnCreate(m: Machine, names: Option<seq<string>>, values: Option<seq<string>>)
    returns (r: Machine)
    ensures ReplacesCustomFields(names, values) ==> r == m.WithChamps(Some(CustomFields(names.value, values.value)))
    ensures !ReplacesCustomFields(names, values) ==> r == m
  {
    r := m;
    if names.Some? && values.Some? && |names.value| == |values.value| {
      var champs := BuildCustomFields(names.value, values.value);
      if champs != map[] {
        r := m.WithChamps(Some(champs));
      }
    }
  }

  /**
   * Update: well-formed arrays always replace the map, even by an empty one;
   * without them the existing machine's map is carried over, and with no
   * existing machine the form's machine keeps its own.
   */
  method ApplyCustomFieldsOnUpdate(m: Machine, existing: Option<Machine>,
                                   names: Option<seq<string>>, values: Option<seq<string>>)
    returns (r: Machine)
    ensures names.Some? && values.Some? && |names.value| == |values.value| ==>
              r == m.WithChamps(Some(CustomFields(names.value, values.value)))
    ensures !(names.Some? && values.Some? && |names.value| == |values.value|) ==>
              r == (if existing.Some? then m.WithChamps(Some(existing.value.champsPersonnalises)) else m)
    ensures r.(champsPersonnalises := m.champsPersonnalises) == m
  {
    if names.Some? && values.Some? && |names.value| == |values.value| {
      var champs := BuildCustomFields(names.value, values.value);
      r := m.WithChamps(Some(champs));
    } else if existing.Some? {
      r := m.WithChamps(Some(existing.value.champsPersonnalises));
    } else {
      r := m;
    }
  }

  // ---------------------------------------------------------------------------
  // The list filter (MachineController.java:186-270)
  // ---------------------------------------------------------------------------

  datatype ListParams = ListParams(
    estSecours: Option<string>, search: Option<string>, categoryId: Option<int>, operationnel: Option<string>)

  /** A backup attached to a principal (non-empty parent id). */
  predicate AttachedBackup(m: Machine)
  {
    m.EstSecours() && m.machinePrincipaleId.Some? && m.machinePrincipaleId.value != ""
  }

  predicate FieldMatches(field: Option<string>, needle: string)
  {
    field.Some? && Contains(ToLower(field.value), needle)
  }

  /** Name, serial, IP, location, category name or notes contain the lower-cased search text. */
  predicate MatchesSearch(m: Machine, search: string)
  {
    var needle := ToLower(search);
    FieldMatches(m.nom, needle) || FieldMatches(m.numeroSerie, needle) || FieldMatches(m.adresseIP, needle)
    || FieldMatches(m.emplacement, needle) || FieldMatches(m.categoryName, needle) || FieldMatches(m.notes, needle)
  }

  predicate WantsBackups(p: ListParams)
  {
    p.estSecours.Some? && EqualsIgnoreCase("true", p.estSecours.value)
  }

  /** The operational filter: "true" (any case) keeps working machines, any other text the others. */
  predicate PassesOperational(m: Machine, operationnel: Option<string>)
  {
    if !HasTextOpt(operationnel) then true
    else if EqualsIgnoreCase("true", operationnel.value) then m.Operationnel() && !m.EnReparation()
    else !m.Operationnel() || m.EnReparation()
  }

  /** The type filter: "entrepot" (exact), "true" (any case) for backups, anything else for principals. */
  predicate PassesType(m: Machine, estSecours: Option<string>)
  {
    if !HasTextOpt(estSecours) then true
    else if estSecours.value == "entrepot" then m.EstEntrepot()
    else if EqualsIgnoreCase("true", estSecours.value) then !m.EstEntrepot() && m.EstSecours()
    else !m.EstEntrepot() && !m.EstSecours()
  }

  /** The filter lambda of the list page. */
  predicate Keeps(m: Machine, p: ListParams)
  {
    (WantsBackups(p) || !AttachedBackup(m))
    && (!HasTextOpt(p.search) || MatchesSearch(m, p.search.value))
    && (p.categoryId.None? || m.categoryId == p.categoryId)
    && PassesOperational(m, p.operationnel)
    && PassesType(m, p.estSecours)
  }

  /** `allMachines.stream().filter(...)`: the kept machines in list order. */
  function FilterMachines(ms: seq<Machine>, p: ListParams): seq<Machine>
    decreases |ms|
  {
    if ms == [] then []
    else FilterMachines(ms[..|ms| - 1], p) + (if Keeps(ms[|ms| - 1], p) then [ms[|ms| - 1]] else [])
  }

  /** The list holds exactly the machines the filter keeps. */
  lemma {:induction false} FilterMachinesMembers(ms: seq<Machine>, p: ListParams)
    ensures forall m :: m in FilterMachines(ms, p) <==> m in ms && Keeps(m, p)
    decreases |ms|
  {
    if ms != [] {
      FilterMachinesMembers(ms[..|ms| - 1], p);
      assert ms == ms[..|ms| - 1] + [ms[|ms| - 1]];
    }
  }

  /** Unless backups are asked for, an attached backup is never listed. */
  lemma ListHidesAttachedBackups(ms: seq<Machine>, p: ListParams, m: Machine)
    requires !WantsBackups(p) && AttachedBackup(m)
    ensures m !in FilterMachines(ms, p)
  {
    FilterMachinesMembers(ms, p);
  }

  /**
   * "true" keeps exactly the machines that are operational and not in repair;
   * any other non-blank value keeps exactly the others, so the two views split
   * every machine the remaining filters keep.
   */
  lemma OperationalFilterSplits(m: Machine, p: ListParams, other: string)
    requires HasText(other) && !EqualsIgnoreCase("true", other)
    ensures Keeps(m, p.(operationnel := Some("true"))) ==> m.Operationnel() && !m.EnReparation()
    ensures Keeps(m, p.(operationnel := None)) ==>
              Keeps(m, p.(operationnel := Some("true"))) != Keeps(m, p.(operationnel := Some(other)))
  {
    assert HasText("true") by { assert !IsWhitespace("true"[0]); }
  }

  // ---------------------------------------------------------------------------
  // secoursCountMap (MachineController.java:287-301)
  // ---------------------------------------------------------------------------

  /** Counted by the loop: an attached backup that has an id. */
  predicate CountedBackupOf(m: Machine, parent: string)
  {
    AttachedBackup(m) && m.machineId.Some? && m.machinePrincipaleId.value == parent
  }

  function SecoursCount(ms: seq<Machine>, parent: string): nat
    decreases |ms|
  {
    if ms == [] then 0
    else SecoursCount(ms[..|ms| - 1], parent) + (if CountedBackupOf(ms[|ms| - 1], parent) then 1 else 0)
  }

  /**
   * The backup count per principal: each principal id maps to its number of
   * attached backups, and only principals with at least one appear. Without an
   * enterprise id the map stays empty.
   */
  method SecoursCountMap(entrepriseId: Option<string>, ms: seq<Machine>) returns (counts: map<string, nat>)
    ensures !HasTextOpt(entrepriseId) ==> counts == map[]
    ensures HasTextOpt(entrepriseId) ==>
              forall p :: (p in counts <==> SecoursCount(ms, p) > 0) && (p in counts ==> counts[p] == SecoursCount(ms, p))
  {
    counts := map[];
    if !HasTextOpt(entrepriseId) {
      return;
    }
    var i := 0;
    while i < |ms|
      invariant 0 <= i <= |ms|
      invariant forall p :: (p in counts <==> SecoursCount(ms[..i], p) > 0)
                            && (p in counts ==> counts[p] == SecoursCount(ms[..i], p))
    {
      var m := ms[i];
      assert ms[..i + 1][..i] == ms[..i];
      if AttachedBackup(m) && m.machineId.Some? {
        var parent := m.machinePrincipaleId.value;
        var before: nat := if parent in counts then counts[parent] else 0;
        counts := counts[parent := before + 1];
      }
      i := i + 1;
    }
    assert ms[..i] == ms;
  }

  /** Every counted backup adds one to exactly one principal: the counts over two lists add up. */
  lemma {:induction false} SecoursCountAppend(xs: seq<Machine>, ys: seq<Machine>, parent: string)
    ensures SecoursCount(xs + ys, parent) == SecoursCount(xs, parent) + SecoursCount(ys, parent)
    decreases |ys|
  {
    if ys == [] {
      assert xs + ys == xs;
    } else {
      assert (xs + ys)[..|xs + ys| - 1] == xs + ys[..|ys| - 1];
      SecoursCountAppend(xs, ys[..|ys| - 1], parent);
    }
  }

  // ---------------------------------------------------------------------------
  // Breakdown detection (MachineController.java:1353-1376)
  // ---------------------------------------------------------------------------

  /**
   * Whether an update puts the machine out of order: the requested state
   * (absent form values keep the stored ones) turns operational off or
   * repair on. Warehouse machines and new machines never break down.
   */
  predicate BreakdownDetected(existing: Option<Machine>, estActuellementEntrepot: bool,
                              formOperationnel: Option<bool>, formEnReparation: Option<bool>)
  {
    existing.Some? && !estActuellementEntrepot
    && var wasOp := existing.value.Operationnel();
       var wasRep := existing.value.EnReparation();
       var newOp := formOperationnel.GetOr(wasOp);
       var newRep := formEnReparation.GetOr(wasRep);
       (wasOp && !newOp) || (!wasRep && newRep)
  }

  /** A breakdown is a change of state: a form that leaves both flags absent or unchanged never triggers one. */
  lemma BreakdownNeedsChange(existing: Machine, formOp: Option<bool>, formRep: Option<bool>)
    requires formOp.None? || formOp.value == existing.Operationnel()
    requires formRep.None? || formRep.value == existing.EnReparation()
    ensures !BreakdownDetected(Some(existing), false, formOp, formRep)
  {
  }

  /** Taking a working machine out of service, or sending a machine not in repair to repair, is detected. */
  lemma BreakdownOnTransition(existing: Machine, formOp: Option<bool>, formRep: Option<bool>)
    ensures (existing.Operationnel() && formOp == Some(false)) || (!existing.EnReparation() && formRep == Some(true))
            ==> BreakdownDetected(Some(existing), false, formOp, formRep)
    ensures BreakdownDetected(Some(existing), false, formOp, formRep)
            ==> (existing.Operationnel() && formOp == Some(false)) || (!existing.EnReparation() && formRep == Some(true))
  {
  }

  // ---------------------------------------------------------------------------
  // promoteSecours (MachineController.java:735-814)
  // ---------------------------------------------------------------------------

  /** The machines of one enterprise, by id. */
  type Store = map<string, Machine>

  predicate IsBackupOf(m: Machine, principalId: string)
  {
    m.EstSecours() && m.machinePrincipaleId == Some(principalId)
  }

  /** The chosen backup as a principal: operational, not in repair, unattached. */
  function Promoted(m: Machine): Machine
  {
    m.(estMachineSecours := Some(false), machinePrincipaleId := None, operationnel := Some(true), enReparation := Some(false))
  }

  /** The old principal and the other backups: in repair, out of order, unattached, no longer backups. */
  function Retired(m: Machine): Machine
  {
    m.(enReparation := Some(true), operationnel := Some(false), estMachineSecours := Some(false), machinePrincipaleId := None)
  }

  /** The store after a successful promotion. */
  function PromotedStore(s: Store, principalId: string, newId: string): Store
  {
    map k | k in s ::
      if k == principalId then Retired(s[k])
      else if k == newId then Promoted(s[k])
      else if IsBackupOf(s[k], principalId) then Retired(s[k])
      else s[k]
  }

  /** Why a promotion is refused. */
  datatype PromotionRefusal =
    | PrincipalNotFound
    | PrincipalWorking     // only a broken principal may be replaced
    | BackupNotFound
    | NotAttachedBackup    // the chosen machine is not a backup of this principal

  /** The message shown for each refusal. */
  function PromotionMessage(r: PromotionRefusal): string
  {
    match r
    case PrincipalNotFound => "Machine principale introuvable."
    case PrincipalWorking =>
      "Cette machine principale est fonctionnelle. Vous ne pouvez promouvoir une machine de secours que si la principale est non fonctionnelle."
    case BackupNotFound => "Machine de secours introuvable."
    case NotAttachedBackup =>
      "La machine sélectionnée n'est pas une machine de secours rattachée à cette machine principale."
  }

  /** The refusals, in the handler's order; `None` when the promotion may go ahead. */
  function PromotionError(s: Store, principalId: string, newId: string): (e: Option<PromotionRefusal>)
    ensures e.None? <==> principalId in s && !s[principalId].Operationnel() && newId in s
                         && IsBackupOf(s[newId], principalId)
  {
    if principalId !in s then Some(PrincipalNotFound)
    else if s[principalId].Operationnel() then Some(PrincipalWorking)
    else if newId !in s then Some(BackupNotFound)
    else if !IsBackupOf(s[newId], principalId) then Some(NotAttachedBackup)
    else None
  }

  /** The store the handler's writes leave, described machine by machine, is `PromotedStore`. */
  lemma PromotedStoreIs(s: Store, principalId: string, newId: string, backups: set<string>, store: Store)
    requires principalId in s && newId in s
    requires backups == set k | k in s && IsBackupOf(s[k], principalId)
    requires RetiredSoFar(s, newId, backups, {}, store)
    ensures store[principalId := Retired(s[principalId])] == PromotedStore(s, principalId, newId)
  {
  }

  datatype Outcome = Done(store: Store) | Refused(reason: PromotionRefusal)

  /**
   * The promotion handler: check, promote the chosen backup, retire the other
   * backups one by one, then retire the old principal.
   */
  method PromoteSecours(s: Store, principalId: string, newId: string) returns (r: Outcome)
    ensures PromotionError(s, principalId, newId).Some? ==> r == Refused(PromotionError(s, principalId, newId).value)
    ensures PromotionError(s, principalId, newId).None? ==> r == Done(PromotedStore(s, principalId, newId))
  {
    var err := PromotionError(s, principalId, newId);
    if err.Some? {
      return Refused(err.value);
    }
    var backups := set k | k in s && IsBackupOf(s[k], principalId);
    var store := s[newId := Promoted(s[newId])];
    var remaining := backups;
    while remaining != {}
      invariant remaining <= backups <= s.Keys
      invariant RetiredSoFar(s, newId, backups, remaining, store)
      decreases |remaining|
    {
      var k :| k in remaining;
      RetireOne(s, newId, backups, remaining, store, k);
      if k != newId {
        store := store[k := Retired(s[k])];
      }
      remaining := remaining - {k};
    }
    PromotedStoreIs(s, principalId, newId, backups, store);
    store := store[principalId := Retired(s[principalId])];
    return Done(store);
  }

  /** The promotion loop's invariant: the chosen backup promoted, the backups already handled retired. */
  predicate RetiredSoFar(s: Store, newId: string, backups: set<string>, remaining: set<string>, store: Store)
  {
    store.Keys == s.Keys && newId in s && store[newId] == Promoted(s[newId])
    && forall k :: k in s && k != newId ==>
         store[k] == (if k in backups && k !in remaining then Retired(s[k]) else s[k])
  }

  /** Retiring one more backup (skipping the chosen one) keeps the invariant. */
  lemma RetireOne(s: Store, newId: string, backups: set<string>, remaining: set<string>, store: Store, k: string)
    requires remaining <= backups <= s.Keys && k in remaining
    requires RetiredSoFar(s, newId, backups, remaining, store)
    ensures RetiredSoFar(s, newId, backups, remaining - {k}, if k != newId then store[k := Retired(s[k])] else store)
  {
  }

  /** The promoted store holds the same machines as before. */
  lemma PromotionKeepsIds(s: Store, principalId: string, newId: string)
    ensures PromotedStore(s, principalId, newId).Keys == s.Keys
  {
  }

  /** The chosen backup (when it is not the principal itself) becomes a working, unattached principal. */
  lemma PromotionPromotes(s: Store, principalId: string, newId: string)
    requires PromotionError(s, principalId, newId).None? && newId != principalId
    ensures var t := PromotedStore(s, principalId, newId);
            t[newId].Operationnel() && !t[newId].EnReparation() && !t[newId].EstSecours()
            && t[newId].machinePrincipaleId.None?
  {
  }

  /** The old principal and every other backup of it are retired; every other machine is untouched. */
  lemma PromotionRetires(s: Store, principalId: string, newId: string, k: string)
    requires k in s && k != newId
    ensures var t := PromotedStore(s, principalId, newId);
            (k == principalId || IsBackupOf(s[k], principalId) ==>
               !t[k].Operationnel() && t[k].EnReparation() && !t[k].EstSecours() && t[k].machinePrincipaleId.None?)
            && (k != principalId && !IsBackupOf(s[k], principalId) ==> t[k] == s[k])
  {
  }

  /** After a promotion no machine is still attached as a backup to the old principal. */
  lemma PromotionDetachesAll(s: Store, principalId: string, newId: string)
    requires PromotionError(s, principalId, newId).None?
    ensures forall k :: k in PromotedStore(s, principalId, newId) ==>
              !IsBackupOf(PromotedStore(s, principalId, newId)[k], principalId)
  {
  }
}
