/**
 * The browser's per-enterprise data store in script.js: twelve global
 * collections that belong to the current enterprise, saved to `localStorage`
 * under the key `enterprise_data_<id>` and reloaded (or seeded) on a switch.
 *
 * Collection entries are kept as opaque JSON texts; the `localStorage` key
 * `enterprise_data_<id>` is represented by the enterprise id itself.
 */
module TenantStore {
  import opened Base

  /** The twelve collections saved per enterprise (script.js:220-233). */
  datatype Collection =
    | Machines | Categories | SubCategories | Repairs | MaintenanceAlerts | MaintenanceHistory
    | Technicians | Inventory | Tickets | Users | Holidays | UserSchedules

  type Json = string

  /** What `JSON.parse` of a stored dataset yields: a field may be absent or null. */
  type StoredData = map<Collection, seq<Json>>

  /** The live collections: every one of the twelve is present. */
  type Dataset = map<Collection, seq<Json>>

  predicate Complete(d: Dataset)
  {
    forall c: Collection :: c in d
  }

  function EmptyDataset(): (d: Dataset)
    ensures Complete(d) && forall c :: d[c] == []
  {
    Fill(map[])
  }

  /** `enterpriseData.<field> || []` for each collection. */
  function Fill(stored: StoredData): (d: Dataset)
    ensures Complete(d)
    ensures forall c :: c in stored ==> d[c] == stored[c]
    ensures forall c :: c !in stored ==> d[c] == []
  {
    map c: Collection | true :: if c in stored then stored[c] else []
  }

  /** `initializeDefaultDataForEnterprise`: copies of the demo data, or twelve empty lists. */
  function Seed(demo: Option<Dataset>): Dataset
  {
    if demo.Some? then demo.value else EmptyDataset()
  }

  /** Loading what was saved gives the collections back unchanged. */
  lemma FillSaved(d: Dataset)
    requires Complete(d)
    ensures Fill(d) == d
  {
  }

  /** A stored dataset with a missing field loads that collection as empty, whatever else it holds. */
  lemma FillMissingIsEmpty(stored: StoredData, c: Collection)
    requires c !in stored
    ensures Fill(stored)[c] == [] && Fill(stored) != stored
  {
  }

  datatype Enterprise = Enterprise(id: int, name: string, isDefault: bool)

  /** The enterprise `loadEnterprises` creates when nothing is stored (script.js:70-81). */
  const SampleEnterprise := Enterprise(1, "Entreprise Exemple 1", true)

  /** The enterprise `checkLogin` creates when the list is empty (script.js:37-47). */
  const FallbackEnterprise := Enterprise(1, "Mon Entreprise", true)

  /** `enterprises.find(e => e.id == id)`. */
  function FindEnterprise(es: seq<Enterprise>, id: int): (r: Option<Enterprise>)
    ensures r.Some? ==> r.value in es && r.value.id == id
    ensures r.None? <==> forall e :: e in es ==> e.id != id
    ensures r.Some? ==> exists k :: 0 <= k < |es| && es[k] == r.value && forall j :: 0 <= j < k ==> es[j].id != id
    decreases |es|
  {
    if es == [] then None
    else if es[0].id == id then Some(es[0])
    else
      var r := FindEnterprise(es[1..], id);
      if r.Some? then
        var k :| 0 <= k < |es[1..]| && es[1..][k] == r.value && forall j :: 0 <= j < k ==> es[1..][j].id != id;
        assert es[k + 1] == r.value;
        r
      else r
  }

  /** `enterprises.find(e => e.isDefault) || enterprises[0]`. */
  function DefaultEnterprise(es: seq<Enterprise>): (r: Enterprise)
    requires es != []
    ensures r in es
    ensures (exists e :: e in es && e.isDefault) ==> r.isDefault
    ensures (forall e :: e in es ==> !e.isDefault) ==> r == es[0]
    ensures r.isDefault ==> exists i :: 0 <= i < |es| && es[i] == r && forall j :: 0 <= j < i ==> !es[j].isDefault
    decreases |es|
  {
    if es[0].isDefault || |es| == 1 then es[0]
    else
      var rest := DefaultEnterprise(es[1..]);
      if rest.isDefault then
        var i :| 0 <= i < |es[1..]| && es[1..][i] == rest && forall j :: 0 <= j < i ==> !es[1..][j].isDefault;
        assert es[i + 1] == rest;
        rest
      else es[0]
  }

  class ClientStore {
    var currentUser: Option<string>
    var enterprises: seq<Enterprise>
    var current: Option<Enterprise>
    var data: Dataset
    /** `localStorage` entries: 'enterprises', 'currentEnterprise', and one dataset per enterprise id. */
    var storedEnterprises: Option<seq<Enterprise>>
    var storedCurrent: Option<Enterprise>
    var storage: map<int, StoredData>
    /** The script's built-in `demoData`. */
    const demo: Option<Dataset>

    ghost predicate Valid()
      reads this
    {
      Complete(data) && (demo.Some? ==> Complete(demo.value))
    }

    /** The page's globals on load: no enterprise selected, every collection empty. */
    constructor(storedEnterprises: Option<seq<Enterprise>>, storage: map<int, StoredData>, demo: Option<Dataset>)
      requires demo.Some? ==> Complete(demo.value)
      ensures Valid()
      ensures this.storedEnterprises == storedEnterprises && this.storage == storage && this.demo == demo
      ensures currentUser.None? && enterprises == [] && current.None? && storedCurrent.None?
      ensures data == EmptyDataset()
    {
      currentUser := None;
      enterprises := [];
      current := None;
      data := EmptyDataset();
      this.storedEnterprises := storedEnterprises;
      storedCurrent := None;
      this.storage := storage;
      this.demo := demo;
    }

    /** `saveCurrentEnterpriseData` (script.js:217-236). */
    method SaveCurrentEnterpriseData()
      modifies this
      ensures current.None? ==> storage == old(storage)
      ensures current.Some? ==> storage == old(storage)[current.value.id := data]
      ensures currentUser == old(currentUser) && enterprises == old(enterprises) && current == old(current)
      ensures data == old(data) && storedEnterprises == old(storedEnterprises) && storedCurrent == old(storedCurrent)
    {
      if current.Some? {
        storage := storage[current.value.id := data];
      }
    }

    /** `initializeDefaultDataForEnterprise` (script.js:271-301). */
    method InitializeDefaultDataForEnterprise()
      requires Valid()
      modifies this
      ensures Valid()
      ensures data == Seed(demo)
      ensures currentUser == old(currentUser) && enterprises == old(enterprises) && current == old(current)
      ensures storage == old(storage) && storedEnterprises == old(storedEnterprises) && storedCurrent == old(storedCurrent)
    {
      if demo.Some? {
        data := demo.value;
      } else {
        data := EmptyDataset();
      }
    }

    /** `loadDataForEnterprise` (script.js:239-268): load or seed, then save straight back. */
    method LoadDataForEnterprise()
      requires Valid()
      modifies this
      ensures Valid()
      ensures old(current).None? ==> data == old(data) && storage == old(storage)
      ensures old(current).Some? ==>
                var id := old(current).value.id;
                data == (if id in old(storage) then Fill(old(storage)[id]) else Seed(demo))
                && storage == old(storage)[id := data]
      ensures currentUser == old(currentUser) && enterprises == old(enterprises) && current == old(current)
      ensures storedEnterprises == old(storedEnterprises) && storedCurrent == old(storedCurrent)
    {
      if current.None? {
        return;
      }
      if current.value.id in storage {
        data := Fill(storage[current.value.id]);
      } else {
        InitializeDefaultDataForEnterprise();
      }
      SaveCurrentEnterpriseData();
    }

    /**
     * `switchEnterprise` (script.js:146-172): save the outgoing dataset under its
     * own id, repoint, then load or seed the incoming one. An unknown id changes nothing.
     */
    method SwitchEnterprise(id: int)
      requires Valid()
      modifies this
      ensures Valid()
      ensures FindEnterprise(old(enterprises), id).None? ==>
                current == old(current) && data == old(data) && storage == old(storage)
                && storedCurrent == old(storedCurrent)
      ensures FindEnterprise(old(enterprises), id).Some? ==>
                var e := FindEnterprise(old(enterprises), id).value;
                var saved := if old(current).Some? then old(storage)[old(current).value.id := old(data)] else old(storage);
                current == Some(e) && storedCurrent == Some(e)
                && data == (if id in saved then Fill(saved[id]) else Seed(demo))
                && storage == saved[id := data]
      ensures FindEnterprise(old(enterprises), id).Some? && old(current).Some? && old(current).value.id != id ==>
                storage[old(current).value.id] == old(data)
      ensures old(current).Some? && old(current).value.id == id ==> data == old(data)
      ensures currentUser == old(currentUser) && enterprises == old(enterprises)
      ensures storedEnterprises == old(storedEnterprises)
    {
      var found := FindEnterprise(enterprises, id);
      if found.Some? {
        SaveCurrentEnterpriseData();
        current := found;
        storedCurrent := found;
        LoadDataForEnterprise();
        if old(current).Some? && old(current).value.id == id {
          FillSaved(old(data));
        }
      }
    }

    /** `loadEnterprises` (script.js:64-91). */
    method LoadEnterprises()
      requires Valid()
      modifies this
      ensures Valid()
      ensures enterprises == (if old(storedEnterprises).Some? then old(storedEnterprises).value else [SampleEnterprise])
      ensures storedEnterprises == Some(enterprises)
      ensures old(current).None? && enterprises != [] ==>
                current == Some(DefaultEnterprise(enterprises)) && storedCurrent == current
      ensures old(current).Some? || enterprises == [] ==>
                current == old(current) && storedCurrent == old(storedCurrent)
      ensures currentUser == old(currentUser) && data == old(data) && storage == old(storage)
    {
      if storedEnterprises.Some? {
        enterprises := storedEnterprises.value;
      } else {
        enterprises := [SampleEnterprise];
        storedEnterprises := Some(enterprises);
      }
      if current.None? && |enterprises| > 0 {
        current := Some(DefaultEnterprise(enterprises));
        storedCurrent := current;
      }
    }

    /**
     * `checkLogin` (script.js:22-62): without a stored user nothing happens and
     * the page leaves for the login screen; otherwise an enterprise is always
     * selected and its data loaded.
     */
    method CheckLogin(storedUser: Option<string>) returns (ok: bool)
      requires Valid()
      modifies this
      ensures Valid()
      ensures ok <==> Truthy(storedUser)
      ensures !ok ==> currentUser == old(currentUser) && current == old(current) && data == old(data)
                      && storage == old(storage) && enterprises == old(enterprises)
      ensures ok ==> currentUser == storedUser && current.Some? && current.value.id in storage
                     && storage[current.value.id] == data
      ensures ok && old(current).None? ==> current.value in enterprises && storedCurrent == current
    {
      if !Truthy(storedUser) {
        return false;
      }
      currentUser := storedUser;
      LoadEnterprises();
      if current.None? && |enterprises| == 0 {
        current := Some(FallbackEnterprise);
        enterprises := enterprises + [FallbackEnterprise];
        storedEnterprises := Some(enterprises);
        storedCurrent := current;
      }
      // The script's second branch, selecting `enterprises[0]` when nothing is
      // selected (script.js:49-52), cannot be taken: `loadEnterprises` has
      // already selected an enterprise whenever the list is non-empty.
      LoadDataForEnterprise();
      return true;
    }
  }

  /** `if (!storedUser)`: an absent or empty stored text is falsy. */
  predicate Truthy(s: Option<string>)
  {
    s.Some? && s.value != ""
  }
}
