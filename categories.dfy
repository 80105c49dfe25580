/*
 * The category service (CategoryService.java): name normalisation, the
 * sorted listing, the lookup by id, the duplicate-name checks of create and
 * update, and the sub-category repository with its ownership checks.
 */
module Categories {
  import opened Base
  import opened JavaStrings
  import opened Ordering

  // ---------------------------------------------------------------------------
  // normalizeCategory (CategoryService.java:316-319)
  // ---------------------------------------------------------------------------

  /** Name and description trimmed, a null staying null. */
  function Normalize(c: Category): Category
  {
    c.(name := TrimOrNull(c.name), description := TrimOrNull(c.description))
  }

  /** Normalising keeps the id and the nulls, trims the texts, and a second pass changes nothing. */
  lemma NormalizeRule(c: Category)
    ensures Normalize(c).id == c.id
    ensures Normalize(c).name.None? <==> c.name.None?
    ensures Normalize(c).description.None? <==> c.description.None?
    ensures c.name.Some? ==> Normalize(c).name.value == Trim(c.name.value)
    ensures Normalize(Normalize(c)) == Normalize(c)
  {
    if c.name.Some? { TrimIdempotent(c.name.value); }
    if c.description.Some? { TrimIdempotent(c.description.value); }
  }

  // ---------------------------------------------------------------------------
  // findAll (CategoryService.java:30-47)
  // ---------------------------------------------------------------------------

  function CategoryName(c: Category): Option<string>
  {
    c.name
  }

  /**
   * The listing: the database's categories sorted by name ignoring case,
   * unnamed ones last; when the database read throws (None), the JPA list
   * already ordered by name is returned as it is.
   */
  method FindAll(fromDatabase: Option<seq<Category>>, jpaByName: seq<Category>) returns (r: seq<Category>)
    ensures fromDatabase.Some? ==> SortedBy(r, CategoryName) && multiset(r) == multiset(fromDatabase.value)
    ensures fromDatabase.None? ==> r == jpaByName
  {
    if fromDatabase.None? {
      return jpaByName;
    }
    r := SortBy(fromDatabase.value, CategoryName);
  }

  /** In a sorted listing every named category comes before every unnamed one. */
  lemma SortedNamedFirst(xs: seq<Category>, i: int, j: int)
    requires SortedBy(xs, CategoryName) && 0 <= i < j < |xs|
    ensures xs[i].name.None? ==> xs[j].name.None?
  {
    assert NameLeq(CategoryName(xs[i]), CategoryName(xs[j]));
  }

  // ---------------------------------------------------------------------------
  // getCategory (CategoryService.java:50-75)
  // ---------------------------------------------------------------------------

  /** `filter(c -> c.getId() != null && c.getId().equals(id)).findFirst()`. */
  function FirstWithId(cs: seq<Category>, id: int): Option<Category>
    decreases |cs|
  {
    if cs == [] then None
    else if cs[0].id == Some(id) then Some(cs[0])
    else FirstWithId(cs[1..], id)
  }

  /** The category found has the id, and no earlier category has it; None iff none has it. */
  lemma {:induction false} FirstWithIdIsFirst(cs: seq<Category>, id: int)
    ensures FirstWithId(cs, id).None? <==> forall i :: 0 <= i < |cs| ==> cs[i].id != Some(id)
    ensures FirstWithId(cs, id).Some? ==>
              exists i :: 0 <= i < |cs| && cs[i] == FirstWithId(cs, id).value && cs[i].id == Some(id)
                          && forall j :: 0 <= j < i ==> cs[j].id != Some(id)
    decreases |cs|
  {
    if cs != [] && cs[0].id != Some(id) {
      FirstWithIdIsFirst(cs[1..], id);
      assert forall i :: 1 <= i < |cs| ==> cs[i] == cs[1..][i - 1];
      if FirstWithId(cs, id).Some? {
        var k :| 0 <= k < |cs[1..]| && cs[1..][k] == FirstWithId(cs, id).value && cs[1..][k].id == Some(id)
                 && forall j :: 0 <= j < k ==> cs[1..][j].id != Some(id);
        assert cs[k + 1] == cs[1..][k];
        forall j | 0 <= j < k + 1
          ensures cs[j].id != Some(id)
        {
          if j > 0 { assert cs[j] == cs[1..][j - 1]; }
        }
      }
    }
  }

  /**
   * The lookup: the first database category with the id; otherwise, or when
   * the database read throws, the JPA row; an error when neither has it.
   */
  function GetCategory(id: int, fromDatabase: Option<seq<Category>>, jpa: Option<Category>): (r: Result<Category>)
    ensures fromDatabase.Some? && FirstWithId(fromDatabase.value, id).Some? ==>
              r == Ok(FirstWithId(fromDatabase.value, id).value)
    ensures (fromDatabase.None? || FirstWithId(fromDatabase.value, id).None?) ==>
              (r.Ok? <==> jpa.Some?) && (jpa.Some? ==> r.value == jpa.value)
  {
    var found := if fromDatabase.Some? then FirstWithId(fromDatabase.value, id) else None;
    if found.Some? then Ok(found.value)
    else if jpa.Some? then Ok(jpa.value)
    else Err("Catégorie introuvable")
  }

  // ---------------------------------------------------------------------------
  // createCategory (CategoryService.java:84-164)
  // ---------------------------------------------------------------------------

  /** Both names present and equal ignoring case (`c.getName() != null && c.getName().equalsIgnoreCase(n)`). */
  predicate SameName(a: Option<string>, b: Option<string>)
  {
    a.Some? && b.Some? && EqualsIgnoreCase(a.value, b.value)
  }

  /** `anyMatch` over the existing categories. */
  predicate NameInUse(cs: seq<Category>, name: Option<string>)
  {
    exists i :: 0 <= i < |cs| && SameName(cs[i].name, name)
  }

  datatype CategoryRefusal = BlankName | DuplicateName | CategoryNotFound

  /** How the database write went: it threw, or it returned a key and the read-back gave this. */
  datatype DatabaseCreate = WriteFailed | Written(readBack: Lookup<Category>)

  datatype CreateOutcome =
    | CreateRejected(reason: CategoryRefusal)
    | CreatedInDatabase(category: Category)
    | SavedInJpa(category: Category)

  /**
   * The create path: normalise; refuse a blank name; refuse a name an
   * existing database category has ignoring case (a failing read counts as
   * no category); write to the database and read the category back. When
   * the write or the read-back throws, the JPA fallback refuses a name JPA
   * already has (`jpaHasName`) and otherwise saves with the id JPA assigns.
   */
  function CreateCategory(c: Category, existing: Option<seq<Category>>, write: DatabaseCreate,
                          jpaHasName: bool, jpaId: int): CreateOutcome
  {
    CreateNormalized(Normalize(c), existing, write, jpaHasName, jpaId)
  }

  /** The create path from the normalised category on. */
  function CreateNormalized(n: Category, existing: Option<seq<Category>>, write: DatabaseCreate,
                            jpaHasName: bool, jpaId: int): CreateOutcome
  {
    if IsEmptyAfterTrim(n.name) then CreateRejected(BlankName)
    else if NameInUse(existing.GetOr([]), n.name) then CreateRejected(DuplicateName)
    else Store(Category(None, n.name, n.description), write, jpaHasName, jpaId)
  }

  /** The write once the checks passed: the database copy read back, else the JPA fallback. */
  function Store(toCreate: Category, write: DatabaseCreate, jpaHasName: bool, jpaId: int): CreateOutcome
  {
    if write.Written? && write.readBack.Found? then CreatedInDatabase(write.readBack.value)
    else if write.Written? && write.readBack.NotFound? then CreatedInDatabase(toCreate)
    else if jpaHasName then CreateRejected(DuplicateName)
    else SavedInJpa(toCreate.(id := Some(jpaId)))
  }

  /** The create is refused as blank exactly when the normalised name is null or trims to nothing. */
  lemma CreateNormalizedBlank(n: Category, existing: Option<seq<Category>>, write: DatabaseCreate,
                              jpaHasName: bool, jpaId: int)
    ensures CreateNormalized(n, existing, write, jpaHasName, jpaId) == CreateRejected(BlankName) <==>
              IsEmptyAfterTrim(n.name)
  {
    if !IsEmptyAfterTrim(n.name) && !NameInUse(existing.GetOr([]), n.name) {
      assert Store(Category(None, n.name, n.description), write, jpaHasName, jpaId) != CreateRejected(BlankName);
    }
  }

  /** The normalised name trims to nothing exactly when the raw name is null or all control and space characters. */
  lemma NormalizedBlankIff(c: Category)
    ensures IsEmptyAfterTrim(Normalize(c).name) <==>
              c.name.None? || forall k :: 0 <= k < |c.name.value| ==> c.name.value[k] <= ' '
  {
    if c.name.Some? {
      TrimIdempotent(c.name.value);
      TrimEmptyIff(c.name.value);
    }
  }

  /** A create is refused as blank exactly when the name is null or only control and space characters. */
  lemma CreateBlankIff(c: Category, existing: Option<seq<Category>>, write: DatabaseCreate,
                       jpaHasName: bool, jpaId: int)
    ensures CreateCategory(c, existing, write, jpaHasName, jpaId) == CreateRejected(BlankName) <==>
              c.name.None? || forall k :: 0 <= k < |c.name.value| ==> c.name.value[k] <= ' '
  {
    CreateNormalizedBlank(Normalize(c), existing, write, jpaHasName, jpaId);
    NormalizedBlankIff(c);
  }

  /** A create that goes through never reuses the name of a database category, ignoring case. */
  lemma CreateNeverDuplicates(c: Category, existing: Option<seq<Category>>, write: DatabaseCreate,
                              jpaHasName: bool, jpaId: int)
    ensures !CreateCategory(c, existing, write, jpaHasName, jpaId).CreateRejected? ==>
              c.name.Some? && !NameInUse(existing.GetOr([]), Some(Trim(c.name.value)))
  {
  }

  /** From the normalised category: the JPA row and the unread database copy carry its name and description. */
  lemma CreateNormalizedStores(n: Category, existing: Option<seq<Category>>, write: DatabaseCreate,
                               jpaHasName: bool, jpaId: int)
    ensures CreateNormalized(n, existing, write, jpaHasName, jpaId).SavedInJpa? ==>
              CreateNormalized(n, existing, write, jpaHasName, jpaId).category == Category(Some(jpaId), n.name, n.description)
    ensures write.Written? && write.readBack.NotFound? && !CreateNormalized(n, existing, write, jpaHasName, jpaId).CreateRejected? ==>
              CreateNormalized(n, existing, write, jpaHasName, jpaId).category == Category(None, n.name, n.description)
  {
    if !IsEmptyAfterTrim(n.name) && !NameInUse(existing.GetOr([]), n.name) {
      assert CreateNormalized(n, existing, write, jpaHasName, jpaId)
          == Store(Category(None, n.name, n.description), write, jpaHasName, jpaId);
    }
  }

  /** What the create builds carries the trimmed name and description; JPA adds its id. */
  lemma CreateStoresTrimmed(c: Category, existing: Option<seq<Category>>, write: DatabaseCreate,
                            jpaHasName: bool, jpaId: int)
    ensures CreateCategory(c, existing, write, jpaHasName, jpaId).SavedInJpa? ==>
              CreateCategory(c, existing, write, jpaHasName, jpaId).category
                == Category(Some(jpaId), TrimOrNull(c.name), TrimOrNull(c.description))
    ensures write.Written? && write.readBack.NotFound? && !CreateCategory(c, existing, write, jpaHasName, jpaId).CreateRejected? ==>
              CreateCategory(c, existing, write, jpaHasName, jpaId).category
                == Category(None, TrimOrNull(c.name), TrimOrNull(c.description))
  {
    CreateNormalizedStores(Normalize(c), existing, write, jpaHasName, jpaId);
  }

  // ---------------------------------------------------------------------------
  // updateCategory (CategoryService.java:166-226)
  // ---------------------------------------------------------------------------

  /** `anyMatch(c -> c.getId() != null && !c.getId().equals(id) && c.getName() != null && c.getName().equalsIgnoreCase(n))`. */
  predicate NameUsedByOther(cs: seq<Category>, id: int, name: Option<string>)
  {
    exists i :: 0 <= i < |cs| && cs[i].id.Some? && cs[i].id.value != id && SameName(cs[i].name, name)
  }

  datatype UpdateOutcome =
    | UpdateRejected(reason: CategoryRefusal)
    | Updated(category: Category)
    | UpdateCrashed

  /**
   * The update path on the JPA row `existing`: an unknown id is refused;
   * with the database list, a name another id uses ignoring case is
   * refused; when the list read throws (None), the fallback refuses a new
   * name JPA already has, and a stored null name makes it throw. Otherwise
   * the row gets the normalised name and description.
   */
  function UpdateCategory(id: int, updated: Category, existing: Option<Category>,
                          fromDatabase: Option<seq<Category>>, jpaHasName: bool): UpdateOutcome
  {
    var n := Normalize(updated);
    if existing.None? then UpdateRejected(CategoryNotFound)
    else
      var row := existing.value.(name := n.name, description := n.description);
      if fromDatabase.Some? then
        if NameUsedByOther(fromDatabase.value, id, n.name) then UpdateRejected(DuplicateName)
        else Updated(row)
      else if existing.value.name.None? then UpdateCrashed
      else if !SameName(existing.value.name, n.name) && jpaHasName then UpdateRejected(DuplicateName)
      else Updated(row)
  }

  /**
   * With the database list, an update is refused as a duplicate exactly
   * when a category with another id has the new (trimmed) name ignoring
   * case; keeping one's own name is never a duplicate. An accepted update
   * keeps the row's id and stores the trimmed texts.
   */
  lemma UpdateCategoryRules(id: int, updated: Category, existing: Option<Category>,
                            cs: seq<Category>, jpaHasName: bool)
    requires existing.Some?
    ensures UpdateCategory(id, updated, existing, Some(cs), jpaHasName) == UpdateRejected(DuplicateName) <==>
              NameUsedByOther(cs, id, TrimOrNull(updated.name))
    ensures (forall i :: 0 <= i < |cs| && SameName(cs[i].name, TrimOrNull(updated.name)) ==> cs[i].id == Some(id)) ==>
              UpdateCategory(id, updated, existing, Some(cs), jpaHasName).Updated?
    ensures UpdateCategory(id, updated, existing, Some(cs), jpaHasName).Updated? ==>
              var r := UpdateCategory(id, updated, existing, Some(cs), jpaHasName).category;
              r.id == existing.value.id && r.name == TrimOrNull(updated.name)
              && r.description == TrimOrNull(updated.description)
  {
  }

  // ---------------------------------------------------------------------------
  // deleteCategory (CategoryService.java:228-259)
  // ---------------------------------------------------------------------------

  /** The JPA category table by id. */
  type CategoryTable = map<int, Category>

  /** An unknown id is refused; otherwise exactly that row goes. */
  function DeleteCategory(table: CategoryTable, id: int): (r: Result<CategoryTable>)
    ensures r.Ok? <==> id in table
    ensures r.Ok? ==> id !in r.value && r.value.Keys == table.Keys - {id}
                      && forall k :: k in r.value ==> r.value[k] == table[k]
  {
    if id !in table then Err("Catégorie introuvable")
    else Ok(table - {id})
  }

  // ---------------------------------------------------------------------------
  // Sub-categories (CategoryService.java:262-309)
  // ---------------------------------------------------------------------------

  /** A sub-category row: its name (never null in the table), description and owning category. */
  datatype SubCategory = SubCategory(name: string, description: Option<string>, categoryId: int)

  /** The sub-category table by id. */
  type SubTable = map<int, SubCategory>

  /** `existsByNameIgnoreCaseAndCategoryId(name, categoryId)`; a null name matches nothing. */
  predicate NameTaken(subs: SubTable, name: Option<string>, categoryId: int)
  {
    exists id :: id in subs && subs[id].categoryId == categoryId && SameName(Some(subs[id].name), name)
  }

  /** No two sub-categories of one category share a name ignoring case. */
  predicate UniqueNames(subs: SubTable)
  {
    forall i, j :: i in subs && j in subs && i != j && subs[i].categoryId == subs[j].categoryId ==>
                     !EqualsIgnoreCase(subs[i].name, subs[j].name)
  }

  datatype SubRefusal = SubNotFound | ParentNotFound | WrongCategory | DuplicateSubName | NullSubName

  /** The form of a sub-category: name and description, each possibly null. */
  datatype SubForm = SubForm(name: Option<string>, description: Option<string>)

  /**
   * `createSubCategory`: the parent must exist; the trimmed name must not be
   * taken in the parent; the row is saved under the id JPA assigns. A null
   * name passes the check and fails the non-null column.
   */
  function CreateSub(subs: SubTable, parentExists: bool, categoryId: int, form: SubForm, newId: int): SubOutcome<SubTable>
  {
    var name := TrimOrNull(form.name);
    if !parentExists then Refused(ParentNotFound)
    else if NameTaken(subs, name, categoryId) then Refused(DuplicateSubName)
    else if name.None? then Refused(NullSubName)
    else Saved(subs[newId := SubCategory(name.value, TrimOrNull(form.description), categoryId)])
  }

  /** The outcome of a sub-category operation: the new table, or why it was refused. */
  datatype SubOutcome<T> = Saved(table: T) | Refused(reason: SubRefusal)

  /**
   * `updateSubCategory`: an unknown id or a sub-category of another
   * category is refused; the new name is a duplicate only when it is taken
   * in the category and differs, ignoring case, from the current name.
   */
  function UpdateSub(subs: SubTable, categoryId: int, subId: int, form: SubForm): SubOutcome<SubTable>
  {
    if subId !in subs then Refused(SubNotFound)
    else
      var existing := subs[subId];
      if existing.categoryId != categoryId then Refused(WrongCategory)
      else
        var name := TrimOrNull(form.name);
        if NameTaken(subs, name, categoryId) && !SameName(Some(existing.name), name) then Refused(DuplicateSubName)
        else if name.None? then Refused(NullSubName)
        else Saved(subs[subId := existing.(name := name.value, description := TrimOrNull(form.description))])
  }

  /** `deleteSubCategory`: an unknown id or a sub-category of another category is refused. */
  function DeleteSub(subs: SubTable, categoryId: int, subId: int): SubOutcome<SubTable>
  {
    if subId !in subs then Refused(SubNotFound)
    else if subs[subId].categoryId != categoryId then Refused(WrongCategory)
    else Saved(subs - {subId})
  }

  /** A sub-category is only ever changed or deleted through its own category. */
  lemma OwnershipRule(subs: SubTable, categoryId: int, subId: int, form: SubForm)
    ensures subId in subs && subs[subId].categoryId != categoryId ==>
              UpdateSub(subs, categoryId, subId, form) == Refused(WrongCategory)
              && DeleteSub(subs, categoryId, subId) == Refused(WrongCategory)
    ensures UpdateSub(subs, categoryId, subId, form).Saved? ==>
              subId in subs && subs[subId].categoryId == categoryId
              && UpdateSub(subs, categoryId, subId, form).table.Keys == subs.Keys
              && UpdateSub(subs, categoryId, subId, form).table[subId].categoryId == categoryId
              && forall k :: k in subs && k != subId ==> UpdateSub(subs, categoryId, subId, form).table[k] == subs[k]
    ensures DeleteSub(subs, categoryId, subId).Saved? ==>
              subId in subs && subs[subId].categoryId == categoryId
              && DeleteSub(subs, categoryId, subId).table == subs - {subId}
  {
  }

  /** Keeping the current name (in any case) is never a duplicate. */
  lemma RenameToSameNameAllowed(subs: SubTable, categoryId: int, subId: int, form: SubForm)
    requires subId in subs && subs[subId].categoryId == categoryId
    requires form.name.Some? && EqualsIgnoreCase(subs[subId].name, Trim(form.name.value))
    ensures UpdateSub(subs, categoryId, subId, form).Saved?
  {
  }

  /** Creating a sub-category keeps names unique within each category. */
  lemma CreateSubKeepsNamesUnique(subs: SubTable, parentExists: bool, categoryId: int, form: SubForm, newId: int)
    requires UniqueNames(subs) && newId !in subs
    requires CreateSub(subs, parentExists, categoryId, form, newId).Saved?
    ensures UniqueNames(CreateSub(subs, parentExists, categoryId, form, newId).table)
  {
    var t := CreateSub(subs, parentExists, categoryId, form, newId).table;
    forall i, j | i in t && j in t && i != j && t[i].categoryId == t[j].categoryId
      ensures !EqualsIgnoreCase(t[i].name, t[j].name)
    {
      if i == newId {
        assert !SameName(Some(subs[j].name), TrimOrNull(form.name));
      } else if j == newId {
        assert !SameName(Some(subs[i].name), TrimOrNull(form.name));
      }
    }
  }

  /** Renaming a sub-category keeps names unique within each category. */
  lemma UpdateSubKeepsNamesUnique(subs: SubTable, categoryId: int, subId: int, form: SubForm)
    requires UniqueNames(subs)
    requires UpdateSub(subs, categoryId, subId, form).Saved?
    ensures UniqueNames(UpdateSub(subs, categoryId, subId, form).table)
  {
    var t := UpdateSub(subs, categoryId, subId, form).table;
    var name := TrimOrNull(form.name);
    forall i, j | i in t && j in t && i != j && t[i].categoryId == t[j].categoryId
      ensures !EqualsIgnoreCase(t[i].name, t[j].name)
    {
      if i == subId || j == subId {
        var other := if i == subId then j else i;
        assert t[other] == subs[other];
        if EqualsIgnoreCase(subs[other].name, name.value) {
          assert NameTaken(subs, name, categoryId);
          assert false;
        }
      }
    }
  }
}
