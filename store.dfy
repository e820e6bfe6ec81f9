/** The catalogue store: one document holding the vehicle, residence and
    reservation lists, read through pure getters and changed by a
    `Database` object whose every successful change ends in a save that
    stamps `lastUpdate`, mirrors the document to storage and fires the
    `databaseUpdated` event. */
module Store {
  import opened Records

  /** The status every new reservation starts with. */
  const Pending: string := "en attente"

  /** The whole persisted document (`this.data`). `locations` is filled by
      the seed data only; no operation reads it. */
  datatype Document = Document(
    vehicules: seq<Record>,
    locations: seq<Record>,
    residences: seq<Record>,
    reservations: seq<Record>,
    lastUpdate: string)
  {
    /** `getVehicules`: the vehicles for sale, in document order. */
    function GetVehicules(): (r: seq<Record>)
      ensures forall i :: 0 <= i < |r| ==> HasCategory(r[i], "vente")
      ensures forall x :: multiset(r)[x] == if HasCategory(x, "vente") then multiset(vehicules)[x] else 0
    {
      FilterCategory(vehicules, "vente")
    }

    /** `getLocations`: the vehicles for rent, in document order. They come
        from `vehicules`; the `locations` list is not consulted. */
    function GetLocations(): (r: seq<Record>)
      ensures forall i :: 0 <= i < |r| ==> HasCategory(r[i], "location")
      ensures forall x :: multiset(r)[x] == if HasCategory(x, "location") then multiset(vehicules)[x] else 0
    {
      FilterCategory(vehicules, "location")
    }

    /** `getAllItems`: the vehicles, then the residences. */
    function GetAllItems(): (r: seq<Record>)
      ensures |r| == |vehicules| + |residences|
      ensures r[..|vehicules|] == vehicules && r[|vehicules|..] == residences
    {
      vehicules + residences
    }

    /** `getResidences`: every residence, whatever its category; it is the
        tail of `getAllItems` that follows the vehicles. */
    function GetResidences(): (r: seq<Record>)
      ensures r == GetAllItems()[|vehicules|..]
    {
      residences
    }

    /** `getReservations`: the reservation list in document order. */
    function GetReservations(): (r: seq<Record>)
      ensures |r| == |reservations| && forall i :: 0 <= i < |r| ==> r[i] == reservations[i]
    {
      reservations
    }

    /** `getItemById`: the first item of `getAllItems` with that id. A
        vehicle with the id shadows every residence with the same id. */
    function GetItemById(id: int): (r: Option<Record>)
      ensures r.None? <==> !Contains(vehicules, id) && !Contains(residences, id)
      ensures r.Some? ==> HasId(r.value, id)
      ensures Contains(vehicules, id) ==> r == FindById(vehicules, id)
      ensures !Contains(vehicules, id) ==> r == FindById(residences, id)
    {
      FindByIdAppend(vehicules, residences, id);
      FindById(GetAllItems(), id)
    }

    /** What `deleteItem` leaves: the first vehicle with the id spliced out
        when there is one, otherwise the first residence with it. Seen
        through `getAllItems`, that is the first match of the whole
        catalogue removed. */
    function WithoutItem(id: int): (d: Document)
      ensures d.GetAllItems() == RemoveFirst(GetAllItems(), id)
      ensures Contains(vehicules, id) ==> d.residences == residences
      ensures !Contains(vehicules, id) ==> d.vehicules == vehicules
      ensures d.locations == locations && d.reservations == reservations
      ensures d.lastUpdate == lastUpdate
    {
      RemoveFirstAppend(vehicules, residences, id);
      if Contains(vehicules, id) then this.(vehicules := RemoveFirst(vehicules, id))
      else this.(residences := RemoveFirst(residences, id))
    }
  }

  /** The outcome of `JSON.parse` on an imported text: a syntax error, or a
      document. */
  datatype ParseResult = Malformed | Parsed(doc: Document)

  // ---------------------------------------------------------------------
  // Seed data

  const ToyotaRav4: Record := map[
    "id" := Num(1), "titre" := Str("Toyota RAV4 2023"), "categorie" := Str("vente"),
    "prix" := Num(32000), "image" := Str("images/télécharger.webp"),
    "description" := Str("SUV familial en excellent état"),
    "caracteristiques" := Arr([Str("4x4"), Str("Automatique"), Str("Climatisation"), Str("Camera de recul")]),
    "disponible" := Bool(true), "type" := Str("SUV")]

  const MercedesClasseA: Record := map[
    "id" := Num(2), "titre" := Str("Mercedes Classe A"), "categorie" := Str("location"),
    "prix" := Num(450), "image" := Str("images/télécharger.webp"),
    "description" := Str("Location mensuelle avec option d'achat"),
    "caracteristiques" := Arr([Str("Diesel"), Str("Automatique"), Str("Toit ouvrant")]),
    "disponible" := Bool(true), "type" := Str("Berline")]

  const Peugeot3008: Record := map[
    "id" := Num(1), "titre" := Str("Peugeot 3008"), "categorie" := Str("location"),
    "prix" := Num(350), "image" := Str("images/télécharger.webp"),
    "description" := Str("Location à la semaine ou au mois"),
    "caracteristiques" := Arr([Str("SUV"), Str("Essence"), Num(5)]),
    "disponible" := Bool(true), "type" := Str("SUV")]

  const AppartementParis: Record := map[
    "id" := Num(1), "titre" := Str("Appartement Moderne 3 pièces"), "categorie" := Str("location"),
    "prix" := Num(850), "image" := Str("images/appartement-paris.jpg"),
    "description" := Str("Appartement neuf au cœur de Paris"),
    "caracteristiques" := Arr([Str("80m²"), Str("3 chambres"), Str("Balcon"), Str("Ascenseur")]),
    "disponible" := Bool(true), "localisation" := Str("Paris 15ème")]

  /** The default document `initializeDefaultData` installs. */
  function Seed(stamp: string): (d: Document)
    ensures d.lastUpdate == stamp && d.reservations == []
    ensures |d.vehicules| == 2 && |d.locations| == 1 && |d.residences| == 1
  {
    Document([ToyotaRav4, MercedesClasseA], [Peugeot3008], [AppartementParis], [], stamp)
  }

  // ---------------------------------------------------------------------
  // The store object

  /** The store. `data` is `this.data`; `stored` stands for the document
      held in local storage under the store's key (serialisation is taken to
      round-trip); `syncEvents` counts the `databaseUpdated` events fired.
      `Synced()` is the invariant every operation keeps: storage holds
      exactly the in-memory document. */
  class Database {
    var data: Document
    ghost var stored: Option<Document>
    ghost var syncEvents: nat

    ghost predicate Synced()
      reads this
    {
      stored == Some(data)
    }

    /** Loads the stored document; installs the defaults when nothing usable
        was stored. `saved` is `None` both when the key is absent and when
        the stored object has no `vehicules`. */
    constructor (saved: Option<Document>, now: string)
      ensures saved.Some? ==> data == saved.value && syncEvents == 0
      ensures saved.None? ==> data == Seed(now) && syncEvents == 1
      ensures Synced()
    {
      // Until the defaults are installed, `this.data` holds nothing usable.
      data := if saved.Some? then saved.value else Document([], [], [], [], "");
      stored := saved;
      syncEvents := 0;
      new;
      if saved.None? {
        InitializeDefaultData(now);
      }
    }

    /** `initializeDefaultData`: replaces the document by the seed data and
        saves it. */
    method InitializeDefaultData(now: string)
      modifies this
      ensures data == Seed(now)
      ensures Synced() && syncEvents == old(syncEvents) + 1
    {
      data := Seed(now);
      SaveToStorage(now);
    }

    /** `saveToStorage`: stamps `lastUpdate` with the save time, writes the
        whole document to storage and fires one change event. */
    method SaveToStorage(now: string)
      modifies this
      ensures data == old(data).(lastUpdate := now)
      ensures Synced() && syncEvents == old(syncEvents) + 1
    {
      data := data.(lastUpdate := now);
      stored := Some(data);
      TriggerSync();
    }

    /** `triggerSync`: one more `databaseUpdated` event. */
    method TriggerSync()
      modifies this
      ensures data == old(data) && stored == old(stored)
      ensures syncEvents == old(syncEvents) + 1
    {
      syncEvents := syncEvents + 1;
    }

    /** `addVehicule`: stamps the record with the clock reading as id and
        `disponible = true`, appends it and saves. */
    method AddVehicule(vehicule: Record, clock: int, now: string) returns (created: Record)
      requires Synced()
      modifies this
      ensures created == Merge(vehicule, map["id" := Num(clock), "disponible" := Bool(true)])
      ensures data == old(data).(vehicules := old(data.vehicules) + [created], lastUpdate := now)
      ensures Synced() && syncEvents == old(syncEvents) + 1
    {
      created := vehicule["id" := Num(clock)];
      created := created["disponible" := Bool(true)];
      data := data.(vehicules := data.vehicules + [created]);
      SaveToStorage(now);
    }

    /** `addResidence`: as `addVehicule`, and the category is forced to
        "location". */
    method AddResidence(residence: Record, clock: int, now: string) returns (created: Record)
      requires Synced()
      modifies this
      ensures created == Merge(residence,
        map["id" := Num(clock), "disponible" := Bool(true), "categorie" := Str("location")])
      ensures data == old(data).(residences := old(data.residences) + [created], lastUpdate := now)
      ensures Synced() && syncEvents == old(syncEvents) + 1
    {
      created := residence["id" := Num(clock)];
      created := created["disponible" := Bool(true)];
      created := created["categorie" := Str("location")];
      data := data.(residences := data.residences + [created]);
      SaveToStorage(now);
    }

    /** `updateItem`: merges the patch into the first vehicle with the id
        and, independently, into the first residence with it; saves only
        when one of the two was found. */
    method UpdateItem(id: int, patch: Record, now: string) returns (updated: bool)
      requires Synced()
      modifies this
      ensures updated <==> Contains(old(data.vehicules), id) || Contains(old(data.residences), id)
      ensures updated ==> data == old(data).(
        vehicules := PatchFirst(old(data.vehicules), id, patch),
        residences := PatchFirst(old(data.residences), id, patch),
        lastUpdate := now)
      ensures updated ==> syncEvents == old(syncEvents) + 1
      ensures !updated ==> data == old(data) && syncEvents == old(syncEvents)
      ensures Synced()
    {
      updated := false;
      var vehiculeIndex := FindIndex(data.vehicules, id);
      if vehiculeIndex != -1 {
        var merged := Merge(data.vehicules[vehiculeIndex], patch);
        data := data.(vehicules := data.vehicules[vehiculeIndex := merged]);
        updated := true;
      }
      var residenceIndex := FindIndex(data.residences, id);
      if residenceIndex != -1 {
        var merged := Merge(data.residences[residenceIndex], patch);
        data := data.(residences := data.residences[residenceIndex := merged]);
        updated := true;
      }
      if updated {
        SaveToStorage(now);
      }
    }

    /** `deleteItem`: splices out the first vehicle with the id, or else the
        first residence with it, and saves; with no match it changes and
        saves nothing. */
    method DeleteItem(id: int, now: string) returns (deleted: bool)
      requires Synced()
      modifies this
      ensures deleted <==> Contains(old(data.vehicules), id) || Contains(old(data.residences), id)
      ensures deleted ==> data == old(data).WithoutItem(id).(lastUpdate := now)
      ensures deleted ==> syncEvents == old(syncEvents) + 1
      ensures !deleted ==> data == old(data) && syncEvents == old(syncEvents)
      ensures Synced()
    {
      var vehiculeIndex := FindIndex(data.vehicules, id);
      if vehiculeIndex != -1 {
        var rest := data.vehicules[..vehiculeIndex] + data.vehicules[vehiculeIndex + 1..];
        assert rest == RemoveFirst(data.vehicules, id);
        assert data.(vehicules := rest) == data.WithoutItem(id);
        data := data.(vehicules := rest);
        SaveToStorage(now);
        return true;
      }
      var residenceIndex := FindIndex(data.residences, id);
      if residenceIndex != -1 {
        var rest := data.residences[..residenceIndex] + data.residences[residenceIndex + 1..];
        assert rest == RemoveFirst(data.residences, id);
        assert data.(residences := rest) == data.WithoutItem(id);
        data := data.(residences := rest);
        SaveToStorage(now);
        return true;
      }
      return false;
    }

    /** `addReservation`: stamps the record with the clock reading as id, the
        current date and the pending status, appends it and saves. */
    method AddReservation(reservation: Record, clock: int, date: string, now: string)
      returns (created: Record)
      requires Synced()
      modifies this
      ensures created == Merge(reservation,
        map["id" := Num(clock), "date" := Str(date), "statut" := Str(Pending)])
      ensures data == old(data).(reservations := old(data.reservations) + [created], lastUpdate := now)
      ensures Synced() && syncEvents == old(syncEvents) + 1
    {
      created := reservation["id" := Num(clock)];
      created := created["date" := Str(date)];
      created := created["statut" := Str(Pending)];
      data := data.(reservations := data.reservations + [created]);
      SaveToStorage(now);
    }

    /** `updateReservationStatus`: sets `statut` (any value) on the first
        reservation with the id and saves; false, with no change and no
        save, when there is none. */
    method UpdateReservationStatus(id: int, statut: Value, now: string) returns (found: bool)
      requires Synced()
      modifies this
      ensures found <==> Contains(old(data.reservations), id)
      ensures found ==> data == old(data).(
        reservations := PatchFirst(old(data.reservations), id, map["statut" := statut]),
        lastUpdate := now)
      ensures found ==> syncEvents == old(syncEvents) + 1
      ensures !found ==> data == old(data) && syncEvents == old(syncEvents)
      ensures Synced()
    {
      var k := FindIndex(data.reservations, id);
      if k != -1 {
        MergeOneField(data.reservations[k], "statut", statut);
        data := data.(reservations := data.reservations[k := data.reservations[k]["statut" := statut]]);
        SaveToStorage(now);
        return true;
      }
      return false;
    }

    /** `exportDatabase`: the whole document, which is also what storage
        holds. */
    function ExportDatabase(): (d: Document)
      reads this
      ensures Synced() ==> stored == Some(d)
    {
      data
    }

    /** `importDatabase`: on a parse error, false and nothing changes;
        otherwise the parsed document replaces the current one wholesale and
        is saved. Importing what `exportDatabase` produced changes nothing
        but `lastUpdate`. */
    method ImportDatabase(parsed: ParseResult, now: string) returns (ok: bool)
      requires Synced()
      modifies this
      ensures ok <==> parsed.Parsed?
      ensures ok ==> data == parsed.doc.(lastUpdate := now) && syncEvents == old(syncEvents) + 1
      ensures !ok ==> data == old(data) && syncEvents == old(syncEvents)
      ensures parsed == Parsed(old(ExportDatabase())) ==> data == old(data).(lastUpdate := now)
      ensures Synced()
    {
      match parsed
      case Malformed =>
        ok := false;
      case Parsed(doc) =>
        data := doc;
        SaveToStorage(now);
        ok := true;
    }
  }

  // ---------------------------------------------------------------------
  // Properties of the catalogue operations

  /** A vehicle appended with an id no vehicle has yet is what
      `getItemById` then returns, whatever residence shares that id. */
  lemma AddedVehiculeIsFound(d: Document, x: Record, id: int)
    requires HasId(x, id) && !Contains(d.vehicules, id)
    ensures d.(vehicules := d.vehicules + [x]).GetItemById(id) == Some(x)
  {
    FindAppended(d.vehicules, x, id);
  }

  /** Likewise for a residence appended with an id no item has yet. */
  lemma AddedResidenceIsFound(d: Document, x: Record, id: int)
    requires HasId(x, id) && !Contains(d.vehicules, id) && !Contains(d.residences, id)
    ensures d.(residences := d.residences + [x]).GetItemById(id) == Some(x)
  {
    FindAppended(d.residences, x, id);
  }

  /** After `addReservation`, `getReservations` is the old list followed by
      the new reservation; under an id no reservation had, the lookup by id
      that `updateReservationStatus` performs finds it. */
  lemma AddedReservationIsListed(d: Document, x: Record, id: int, now: string)
    ensures d.(reservations := d.reservations + [x], lastUpdate := now).GetReservations() ==
      d.GetReservations() + [x]
    ensures HasId(x, id) && !Contains(d.reservations, id) ==>
      FindById(d.(reservations := d.reservations + [x]).GetReservations(), id) == Some(x)
  {
    if HasId(x, id) && !Contains(d.reservations, id) {
      FindAppended(d.reservations, x, id);
    }
  }

  /** Appending a vehicle extends the sale or the rental listing by exactly
      that vehicle, according to its category, and leaves the other as it
      was. */
  lemma AddedVehiculeListings(d: Document, x: Record)
    ensures d.(vehicules := d.vehicules + [x]).GetVehicules() ==
      d.GetVehicules() + (if HasCategory(x, "vente") then [x] else [])
    ensures d.(vehicules := d.vehicules + [x]).GetLocations() ==
      d.GetLocations() + (if HasCategory(x, "location") then [x] else [])
  {
    assert [x][1..] == [];
    assert FilterCategory([x], "vente") == if HasCategory(x, "vente") then [x] else [];
    assert FilterCategory([x], "location") == if HasCategory(x, "location") then [x] else [];
    FilterCategoryAppend(d.vehicules, [x], "vente");
    FilterCategoryAppend(d.vehicules, [x], "location");
  }

  /** After `updateItem` with a patch that leaves the id alone, the lookup
      by that id finds the old record with the patch merged in. */
  lemma UpdatedItemIsFound(d: Document, id: int, patch: Record)
    requires "id" !in patch || patch["id"] == Num(id)
    ensures d.(vehicules := PatchFirst(d.vehicules, id, patch),
               residences := PatchFirst(d.residences, id, patch)).GetItemById(id) ==
      match d.GetItemById(id)
      case Some(x) => Some(Merge(x, patch))
      case None => None
  {
    var vs := PatchFirst(d.vehicules, id, patch);
    var rs := PatchFirst(d.residences, id, patch);
    PatchFirstKeepsLookup(d.vehicules, id, patch);
    PatchFirstKeepsLookup(d.residences, id, patch);
    assert Contains(vs, id) <==> Contains(d.vehicules, id) by {
      assert FindById(vs, id).Some? <==> FindById(d.vehicules, id).Some?;
    }
  }

  /** When only one item carries the id, `deleteItem` leaves nothing to
      find under it and the catalogue is one item shorter. */
  lemma DeletedUniqueItemIsGone(d: Document, id: int)
    requires UniqueId(d.GetAllItems(), id)
    ensures d.WithoutItem(id).GetItemById(id).None?
    ensures |d.WithoutItem(id).GetAllItems()| ==
      if Contains(d.GetAllItems(), id) then |d.GetAllItems()| - 1 else |d.GetAllItems()|
  {
    var e := d.WithoutItem(id);
    RemoveUniqueLeavesNone(d.GetAllItems(), id);
    FindByIdAppend(e.vehicules, e.residences, id);
  }

  /** `updateReservationStatus` touches only the `statut` field of the first
      reservation with the id: every other field of it, and every other
      reservation, stays as it was. */
  lemma StatusUpdateTouchesOnlyStatut(rs: seq<Record>, id: int, statut: Value)
    ensures |PatchFirst(rs, id, map["statut" := statut])| == |rs|
    ensures forall k :: 0 <= k < |rs| ==>
      PatchFirst(rs, id, map["statut" := statut])[k] ==
        if IsFirstMatch(rs, k, id) then rs[k]["statut" := statut] else rs[k]
  {
    forall k | 0 <= k < |rs| && IsFirstMatch(rs, k, id) {
      MergeOneField(rs[k], "statut", statut);
    }
  }

  // ---------------------------------------------------------------------
  // The seed data: its ids collide

  /** On the seed data, id 1 names both the Toyota and the Paris flat; the
      lookup returns the Toyota. The rental listing holds the Mercedes only:
      the Peugeot of the seed `locations` list never appears. */
  lemma SeedLookupAndListings(stamp: string)
    ensures Seed(stamp).GetItemById(1) == Some(ToyotaRav4)
    ensures Seed(stamp).GetVehicules() == [ToyotaRav4]
    ensures Seed(stamp).GetLocations() == [MercedesClasseA]
  {
    SeedRecordFacts();
    var vs := Seed(stamp).vehicules;
    assert vs[1..] == [MercedesClasseA] && [MercedesClasseA][1..] == [];
    assert FilterCategory([MercedesClasseA], "vente") == [];
    assert FilterCategory([MercedesClasseA], "location") == [MercedesClasseA];
    assert IsFirstMatch(vs, 0, 1);
  }

  /** What the seed lemmas need to know of the seed records. */
  lemma SeedRecordFacts()
    ensures HasId(ToyotaRav4, 1) && HasCategory(ToyotaRav4, "vente") && !HasCategory(ToyotaRav4, "location")
    ensures !HasId(MercedesClasseA, 1) && HasCategory(MercedesClasseA, "location")
    ensures !HasCategory(MercedesClasseA, "vente")
    ensures HasId(AppartementParis, 1)
  {
  }

  /** On the seed data, deleting id 1 removes the Toyota and the lookup by
      id 1 then finds the Paris flat. */
  lemma SeedDeleteOneLeavesResidence(stamp: string)
    ensures Seed(stamp).WithoutItem(1).vehicules == [MercedesClasseA]
    ensures Seed(stamp).WithoutItem(1).GetItemById(1) == Some(AppartementParis)
  {
    SeedRecordFacts();
    SeedWithoutOne(stamp);
    var e := Seed(stamp).WithoutItem(1);
    assert !Contains(e.vehicules, 1);
    assert IsFirstMatch(e.residences, 0, 1);
  }

  /** Deleting id 1 from the seed splices the Toyota out of `vehicules`. */
  lemma SeedWithoutOne(stamp: string)
    ensures Seed(stamp).WithoutItem(1) == Seed(stamp).(vehicules := [MercedesClasseA])
  {
    SeedRecordFacts();
    var d := Seed(stamp);
    assert IsFirstMatch(d.vehicules, 0, 1);
    assert d.vehicules[..0] + d.vehicules[1..] == [MercedesClasseA];
  }

  /** On the seed data, updating id 1 patches both the Toyota and the
      Paris flat. */
  lemma SeedUpdateOnePatchesBoth(patch: Record, stamp: string)
    ensures PatchFirst(Seed(stamp).vehicules, 1, patch) == [Merge(ToyotaRav4, patch), MercedesClasseA]
    ensures PatchFirst(Seed(stamp).residences, 1, patch) == [Merge(AppartementParis, patch)]
  {
    SeedRecordFacts();
    var d := Seed(stamp);
    assert IsFirstMatch(d.vehicules, 0, 1);
    assert IsFirstMatch(d.residences, 0, 1);
  }
}
