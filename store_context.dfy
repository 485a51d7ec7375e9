/** The store-profile state of src/contexts/StoreContext.tsx: the list of
    available profiles and the id of the active one, the `storeProfile` lookup
    with its fall-back to the first profile, `updateStoreProfile` (merges a
    partial profile into the active entry) and `switchStore` (guarded). */
module StoreContext {
  import opened Types

  const DefaultStores: seq<StoreProfile> := [
    StoreProfile("adreena-store", "Adreena Store", Some("Jl. Pemuda No.34, Majalengka"),
                 Some("085351881666"), Some("085351881666"), None,
                 Some("Terima kasih telah berbelanja di Adreena Store")),
    StoreProfile("alzena-point", "Alzena Point", Some("Jl. Pahlawan No.12, Majalengka"),
                 Some("085351881777"), Some("085351881777"), None,
                 Some("Terima kasih telah berbelanja di Alzena Point"))
  ]

  const DefaultActiveStoreId: string := "adreena-store"

  /** `stores.some(store => store.id === id)`. */
  predicate HasStore(stores: seq<StoreProfile>, id: string) {
    exists i | 0 <= i < |stores| :: stores[i].id == id
  }

  /** `stores.find(store => store.id === id)`. */
  function FindStore(stores: seq<StoreProfile>, id: string): (r: Option<StoreProfile>)
    ensures r.None? <==> !HasStore(stores, id)
    ensures r.Some? ==> exists i :: 0 <= i < |stores| && stores[i] == r.value && r.value.id == id
                                   && forall j :: 0 <= j < i ==> stores[j].id != id
  {
    if stores == [] then None
    else if stores[0].id == id then Some(stores[0])
    else
      var r := FindStore(stores[1..], id);
      assert HasStore(stores, id) ==> HasStore(stores[1..], id) by {
        if HasStore(stores, id) {
          var i :| 0 <= i < |stores| && stores[i].id == id;
          assert i > 0 && stores[1..][i - 1] == stores[i];
        }
      }
      assert r.Some? ==> exists i :: 0 <= i < |stores| && stores[i] == r.value && r.value.id == id
                                   && forall j :: 0 <= j < i ==> stores[j].id != id by {
        if r.Some? {
          var k :| 0 <= k < |stores| - 1 && stores[1..][k] == r.value && r.value.id == id
                   && forall j :: 0 <= j < k ==> stores[1..][j].id != id;
          assert forall j :: 0 <= j < k + 1 ==> stores[j].id != id by {
            forall j | 0 <= j < k + 1 ensures stores[j].id != id {
              if j > 0 { assert stores[j] == stores[1..][j - 1]; }
            }
          }
        }
      }
      r
  }

  /** `storeProfile`: the profile whose id is the active one, or else the first
      profile; nothing at all only when there are no profiles. */
  function ActiveProfile(stores: seq<StoreProfile>, activeId: string): (r: Option<StoreProfile>)
    ensures r.None? <==> stores == []
    ensures HasStore(stores, activeId) ==> r.Some? && exists i :: 0 <= i < |stores| && stores[i] == r.value
                                                              && r.value.id == activeId
                                                              && forall j :: 0 <= j < i ==> stores[j].id != activeId
    ensures !HasStore(stores, activeId) && stores != [] ==> r == Some(stores[0])
  {
    match FindStore(stores, activeId)
    case Some(p) => Some(p)
    case None => if stores == [] then None else Some(stores[0])
  }

  /** `{ ...store, ...profile }`. */
  function MergeProfile(p: StoreProfile, patch: StoreProfilePatch): StoreProfile {
    StoreProfile(patch.id.Over(p.id), patch.storeName.Over(p.storeName),
                 patch.storeAddress.Over(p.storeAddress), patch.storePhone.Over(p.storePhone),
                 patch.storeWhatsapp.Over(p.storeWhatsapp), patch.storeLogo.Over(p.storeLogo),
                 patch.storeFooter.Over(p.storeFooter))
  }

  /** A merged profile takes every key the patch carries and keeps every other
      field as it was. */
  lemma MergeProfileFields(p: StoreProfile, patch: StoreProfilePatch)
    ensures var r := MergeProfile(p, patch);
            && (if patch.id.Present? then r.id == patch.id.value else r.id == p.id)
            && (if patch.storeName.Present? then r.storeName == patch.storeName.value else r.storeName == p.storeName)
            && (if patch.storeAddress.Present? then r.storeAddress == patch.storeAddress.value else r.storeAddress == p.storeAddress)
            && (if patch.storePhone.Present? then r.storePhone == patch.storePhone.value else r.storePhone == p.storePhone)
            && (if patch.storeWhatsapp.Present? then r.storeWhatsapp == patch.storeWhatsapp.value else r.storeWhatsapp == p.storeWhatsapp)
            && (if patch.storeLogo.Present? then r.storeLogo == patch.storeLogo.value else r.storeLogo == p.storeLogo)
            && (if patch.storeFooter.Present? then r.storeFooter == patch.storeFooter.value else r.storeFooter == p.storeFooter)
  {
  }

  /** `availableStores.map(store => store.id === activeStoreId ? { ...store, ...profile } : store)`. */
  function MergeIntoActive(stores: seq<StoreProfile>, activeId: string, patch: StoreProfilePatch): (r: seq<StoreProfile>)
    ensures |r| == |stores|
    ensures forall i :: 0 <= i < |stores| ==>
              r[i] == if stores[i].id == activeId then MergeProfile(stores[i], patch) else stores[i]
  {
    if stores == [] then []
    else [if stores[0].id == activeId then MergeProfile(stores[0], patch) else stores[0]]
         + MergeIntoActive(stores[1..], activeId, patch)
  }

  /** After an update that keeps the id, the active profile is the old active
      profile with the patch merged in. */
  lemma {:induction false} UpdateThenActiveProfile(stores: seq<StoreProfile>, activeId: string, patch: StoreProfilePatch)
    requires HasStore(stores, activeId)
    requires patch.id.Absent?
    ensures ActiveProfile(MergeIntoActive(stores, activeId, patch), activeId)
         == Some(MergeProfile(ActiveProfile(stores, activeId).value, patch))
    decreases |stores|
  {
    if stores[0].id != activeId {
      assert HasStore(stores[1..], activeId) by {
        var i :| 0 <= i < |stores| && stores[i].id == activeId;
        assert stores[1..][i - 1] == stores[i];
      }
      UpdateThenActiveProfile(stores[1..], activeId, patch);
      var m := MergeIntoActive(stores, activeId, patch);
      assert m[1..] == MergeIntoActive(stores[1..], activeId, patch);
    }
  }

  /** With an active id that names no profile, an update changes nothing,
      although `storeProfile` shows the first profile. */
  lemma UpdateWithDanglingActiveId(stores: seq<StoreProfile>, activeId: string, patch: StoreProfilePatch)
    requires !HasStore(stores, activeId)
    ensures MergeIntoActive(stores, activeId, patch) == stores
  {
  }

  /** The two built-in profiles have different ids, and the initial active id
      selects the first of them. */
  lemma DefaultStoresWellFormed()
    ensures |DefaultStores| == 2 && DefaultStores[0].id != DefaultStores[1].id
    ensures HasStore(DefaultStores, DefaultActiveStoreId)
    ensures ActiveProfile(DefaultStores, DefaultActiveStoreId) == Some(DefaultStores[0])
  {
    assert DefaultStores[0].id == DefaultActiveStoreId;
  }

  /** The session's store state, as `StoreProvider` holds it in memory. */
  class StoreSession {
    var availableStores: seq<StoreProfile>
    var activeStoreId: string

    constructor ()
      ensures availableStores == DefaultStores && activeStoreId == DefaultActiveStoreId
    {
      availableStores := DefaultStores;
      activeStoreId := DefaultActiveStoreId;
    }

    /** Merges the patch into the active profile only. */
    method UpdateStoreProfile(patch: StoreProfilePatch)
      modifies this
      ensures availableStores == MergeIntoActive(old(availableStores), old(activeStoreId), patch)
      ensures activeStoreId == old(activeStoreId)
    {
      availableStores := MergeIntoActive(availableStores, activeStoreId, patch);
    }

    /** Makes `id` active when a profile has it; otherwise does nothing. */
    method SwitchStore(id: string)
      modifies this
      ensures availableStores == old(availableStores)
      ensures HasStore(old(availableStores), id) ==> activeStoreId == id
      ensures !HasStore(old(availableStores), id) ==> activeStoreId == old(activeStoreId)
    {
      if HasStore(availableStores, id) {
        activeStoreId := id;
      }
    }
  }
}
