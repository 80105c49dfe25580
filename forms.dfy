/*
 * The web forms that become entities: `StockForm.toStock` and
 * `ComponentForm.toComponent`. Texts are trimmed with null read as "",
 * a few defaults fill in missing values, everything else passes through.
 */
module Forms {
  import opened Base
  import opened JavaStrings

  // ---------------------------------------------------------------------------
  // StockForm (StockForm.java:19-32)
  // ---------------------------------------------------------------------------

  /** The fields `StockForm` declares; the unit price is carried, never computed with. */
  datatype StockForm = StockForm(
    entrepriseId: Option<string>, machineId: Option<string>, nomProduit: Option<string>,
    reference: Option<string>, quantite: Option<int>, unite: Option<string>,
    prixUnitaire: Option<real>, emplacement: Option<string>, seuilMinimum: Option<int>,
    fournisseur: Option<string>, notes: Option<string>)

  /** The `Stock` entity's fields that a form can set; the rest stay null. */
  datatype Stock = Stock(
    stockId: Option<string>, entrepriseId: Option<string>, machineId: Option<string>,
    nomProduit: Option<string>, reference: Option<string>, quantite: Option<int>,
    unite: Option<string>, prixUnitaire: Option<real>, emplacement: Option<string>,
    seuilMinimum: Option<int>, fournisseur: Option<string>, notes: Option<string>)

  /** `new Stock()`: every field null. */
  const EMPTY_STOCK: Stock := Stock(None, None, None, None, None, None, None, None, None, None, None, None)

  /**
   * `toStock`: the six texts are set and trimmed (null as ""), the machine
   * id is trimmed and stays null when null, a missing quantity is 0, price
   * and threshold pass through, and neither the stock id nor the enterprise
   * id is copied.
   */
  function ToStock(f: StockForm): (s: Stock)
    ensures s.nomProduit == Some(if f.nomProduit.Some? then Trim(f.nomProduit.value) else "")
    ensures s.reference == Some(if f.reference.Some? then Trim(f.reference.value) else "")
    ensures s.unite == Some(if f.unite.Some? then Trim(f.unite.value) else "")
    ensures s.emplacement == Some(if f.emplacement.Some? then Trim(f.emplacement.value) else "")
    ensures s.fournisseur == Some(if f.fournisseur.Some? then Trim(f.fournisseur.value) else "")
    ensures s.notes == Some(if f.notes.Some? then Trim(f.notes.value) else "")
    ensures (s.machineId.Some? <==> f.machineId.Some?)
    ensures f.machineId.Some? ==> s.machineId.value == Trim(f.machineId.value)
    ensures s.quantite == Some(if f.quantite.Some? then f.quantite.value else 0)
    ensures s.prixUnitaire == f.prixUnitaire && s.seuilMinimum == f.seuilMinimum
    ensures s.stockId.None? && s.entrepriseId.None?
  {
    EMPTY_STOCK.(
      machineId := TrimOrNull(f.machineId),
      nomProduit := Some(TrimOrEmpty(f.nomProduit)),
      reference := Some(TrimOrEmpty(f.reference)),
      quantite := Some(f.quantite.GetOr(0)),
      unite := Some(TrimOrEmpty(f.unite)),
      prixUnitaire := f.prixUnitaire,
      emplacement := Some(TrimOrEmpty(f.emplacement)),
      seuilMinimum := f.seuilMinimum,
      fournisseur := Some(TrimOrEmpty(f.fournisseur)),
      notes := Some(TrimOrEmpty(f.notes)))
  }

  /** The form a stored stock is edited through (the enterprise id travels separately). */
  function StockFormOf(s: Stock): StockForm
  {
    StockForm(None, s.machineId, s.nomProduit, s.reference, s.quantite, s.unite,
              s.prixUnitaire, s.emplacement, s.seuilMinimum, s.fournisseur, s.notes)
  }

  /** Submitting an unchanged edit form of a converted stock gives back the same stock. */
  lemma ToStockIdempotent(f: StockForm)
    ensures ToStock(StockFormOf(ToStock(f))) == ToStock(f)
  {
    TrimOnce(f.machineId);
    TrimOnce(f.nomProduit);
    TrimOnce(f.reference);
    TrimOnce(f.unite);
    TrimOnce(f.emplacement);
    TrimOnce(f.fournisseur);
    TrimOnce(f.notes);
  }

  /** Trimming a trimmed optional text changes nothing. */
  lemma TrimOnce(s: Option<string>)
    ensures TrimOrNull(TrimOrNull(s)) == TrimOrNull(s)
    ensures TrimOrEmpty(Some(TrimOrEmpty(s))) == TrimOrEmpty(s)
  {
    if s.Some? {
      TrimIdempotent(s.value);
    }
  }

  // ---------------------------------------------------------------------------
  // ComponentForm (ComponentForm.java:21-34, 112-114)
  // ---------------------------------------------------------------------------

  /** The fields `ComponentForm` declares; `photos` is never null on the form. */
  datatype ComponentForm = ComponentForm(
    entrepriseId: Option<string>, machineId: Option<string>, componentId: Option<string>,
    categoryId: Option<int>, categoryName: Option<string>, nom: Option<string>,
    numeroSerie: Option<string>, etat: Option<string>, notes: Option<string>,
    photos: seq<string>)

  /** The `Component` entity's fields that a form can set; bookkeeping fields stay null. */
  datatype Component = Component(
    componentId: Option<string>, entrepriseId: Option<string>, machineId: Option<string>,
    categoryId: Option<int>, categoryName: Option<string>, nom: Option<string>,
    numeroSerie: Option<string>, etat: Option<string>, notes: Option<string>,
    photos: seq<string>, location: Option<string>, typePeripherique: Option<string>)

  /** `new Component()`: null fields and an empty photo list. */
  const EMPTY_COMPONENT: Component :=
    Component(None, None, None, None, None, None, None, None, None, [], None, None)

  const DEFAULT_ETAT: string := "fonctionnel"

  /**
   * `toComponent`: ids and category copied as they are, the three texts
   * trimmed (null as ""), a null state read as "fonctionnel" and any other
   * state kept untrimmed, and the photo list copied.
   */
  function ToComponent(f: ComponentForm): (c: Component)
    ensures c.componentId == f.componentId && c.entrepriseId == f.entrepriseId
    ensures c.machineId == f.machineId && c.categoryId == f.categoryId
    ensures c.categoryName == f.categoryName
    ensures c.nom == Some(if f.nom.Some? then Trim(f.nom.value) else "")
    ensures c.numeroSerie == Some(if f.numeroSerie.Some? then Trim(f.numeroSerie.value) else "")
    ensures c.notes == Some(if f.notes.Some? then Trim(f.notes.value) else "")
    ensures c.etat == Some(if f.etat.Some? then f.etat.value else "fonctionnel")
    ensures c.photos == f.photos
    ensures c.location.None? && c.typePeripherique.None?
  {
    EMPTY_COMPONENT.(
      componentId := f.componentId,
      entrepriseId := f.entrepriseId,
      machineId := f.machineId,
      categoryId := f.categoryId,
      categoryName := f.categoryName,
      nom := Some(TrimOrEmpty(f.nom)),
      numeroSerie := Some(TrimOrEmpty(f.numeroSerie)),
      etat := Some(f.etat.GetOr(DEFAULT_ETAT)),
      notes := Some(TrimOrEmpty(f.notes)),
      photos := f.photos)
  }

  /** `setPhotos`: null gives an empty list, anything else is copied; nothing else changes. */
  function SetPhotos(f: ComponentForm, p: Option<seq<string>>): (g: ComponentForm)
    ensures g.photos == (if p.Some? then p.value else [])
    ensures g.(photos := f.photos) == f
  {
    f.(photos := p.GetOr([]))
  }

  /** The form a stored component is edited through. */
  function ComponentFormOf(c: Component): ComponentForm
  {
    ComponentForm(c.entrepriseId, c.machineId, c.componentId, c.categoryId, c.categoryName,
                  c.nom, c.numeroSerie, c.etat, c.notes, c.photos)
  }

  /** Submitting an unchanged edit form of a converted component gives back the same component. */
  lemma ToComponentIdempotent(f: ComponentForm)
    ensures ToComponent(ComponentFormOf(ToComponent(f))) == ToComponent(f)
  {
    TrimOnce(f.nom);
    TrimOnce(f.numeroSerie);
    TrimOnce(f.notes);
  }
}
