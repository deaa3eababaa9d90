/**
 * The MedGuard chaincode: a ledger of drug batches, each with one owner and an
 * append-only history. The Fabric stub's world state is a map from key to the
 * stored value; the transaction timestamp is a parameter.
 */
module Chaincode {
  import opened Wrappers

  /** The asset dictionary put on the ledger for one batch. */
  datatype DrugAsset = DrugAsset(
    docType: string,
    batchNumber: string,
    drugName: string,
    manufacturer: string,
    mfgDate: string,
    expiryDate: string,
    owner: string,
    history: seq<string>)

  /** A value under a key: empty bytes, or the bytes of an asset (serialisation is not modelled). */
  datatype Stored = EmptyBytes | Bytes(asset: DrugAsset)

  /** get_state: an absent key reads as None. */
  type WorldState = map<string, Stored>

  function RegisteredEntry(manufacturer: string, txTimestamp: string): string {
    "Registered by " + manufacturer + " on " + txTimestamp
  }

  function TransferredEntry(previousOwner: string, newOwner: string, txTimestamp: string): string {
    "Transferred from " + previousOwner + " to " + newOwner + " on " + txTimestamp
  }

  function AlreadyExists(batchNumber: string): string {
    "The drug batch " + batchNumber + " already exists."
  }

  function DoesNotExist(batchNumber: string): string {
    "The drug batch " + batchNumber + " does not exist."
  }

  /** _asset_exists: get_state returned something, even empty bytes. */
  predicate AssetExists(ws: WorldState, id: string) {
    id in ws
  }

  /** _get_asset: None for an absent key and for empty bytes, otherwise the stored asset. */
  function GetAsset(ws: WorldState, id: string): (a: Option<DrugAsset>)
    ensures a.Some? <==> id in ws && ws[id] != EmptyBytes
    ensures a.Some? ==> ws[id] == Bytes(a.value)
  {
    if id in ws && ws[id].Bytes? then Some(ws[id].asset) else None
  }

  /** The asset register_drug_batch builds: the manufacturer owns it and its history is one entry. */
  function NewAsset(batchNumber: string, drugName: string, manufacturer: string, mfgDate: string,
                    expiryDate: string, txTimestamp: string): DrugAsset
  {
    DrugAsset("drug", batchNumber, drugName, manufacturer, mfgDate, expiryDate, manufacturer,
              [RegisteredEntry(manufacturer, txTimestamp)])
  }

  /** The asset after transfer_drug_ownership: new owner, one more history entry naming both owners. */
  function Transferred(a: DrugAsset, newOwner: string, txTimestamp: string): DrugAsset {
    a.(owner := newOwner, history := a.history + [TransferredEntry(a.owner, newOwner, txTimestamp)])
  }

  /** Transfer changes the owner and extends the history by exactly one entry; nothing else. */
  lemma TransferAppendsOne(a: DrugAsset, newOwner: string, txTimestamp: string)
    ensures var b := Transferred(a, newOwner, txTimestamp);
      && b.owner == newOwner
      && |b.history| == |a.history| + 1
      && b.history[..|a.history|] == a.history
      && b.history[|a.history|] == TransferredEntry(a.owner, newOwner, txTimestamp)
      && b.(owner := a.owner, history := a.history) == a
  {
  }

  /**
   * The asymmetry between the two helpers: a key holding empty bytes exists for
   * register_drug_batch (which refuses it) yet is absent for transfer and query.
   */
  lemma EmptyValueExistsButIsAbsent(ws: WorldState, id: string)
    requires id in ws && ws[id] == EmptyBytes
    ensures AssetExists(ws, id) && GetAsset(ws, id) == None
  {
  }

  /** The history begins with the entry the registering manufacturer wrote. */
  ghost predicate StartsWithRegistration(history: seq<string>, manufacturer: string) {
    |history| > 0 && exists ts :: history[0] == RegisteredEntry(manufacturer, ts)
  }

  /**
   * Every batch registered through the contract holds an asset whose history is its
   * registration entry followed by one entry per transfer.
   */
  ghost predicate LedgerInvariant(ws: WorldState, transfers: map<string, nat>, registeredBy: map<string, string>) {
    && transfers.Keys == registeredBy.Keys
    && forall k :: k in transfers ==>
         && k in ws && ws[k].Bytes?
         && |ws[k].asset.history| == 1 + transfers[k]
         && StartsWithRegistration(ws[k].asset.history, registeredBy[k])
  }

  /** Registering a new key under the invariant keeps it, counting no transfer yet. */
  lemma RegisterKeepsInvariant(ws: WorldState, transfers: map<string, nat>, registeredBy: map<string, string>,
                               a: DrugAsset, ts: string)
    requires LedgerInvariant(ws, transfers, registeredBy) && a.batchNumber !in ws
    requires a == NewAsset(a.batchNumber, a.drugName, a.manufacturer, a.mfgDate, a.expiryDate, ts)
    ensures LedgerInvariant(ws[a.batchNumber := Bytes(a)], transfers[a.batchNumber := 0],
                            registeredBy[a.batchNumber := a.manufacturer])
  {
    assert a.history[0] == RegisteredEntry(a.manufacturer, ts);
  }

  /** Rewriting a key with its transferred asset keeps the invariant, with one more transfer. */
  lemma TransferKeepsInvariant(ws: WorldState, transfers: map<string, nat>, registeredBy: map<string, string>,
                               id: string, newOwner: string, ts: string)
    requires LedgerInvariant(ws, transfers, registeredBy) && GetAsset(ws, id).Some?
    ensures LedgerInvariant(ws[id := Bytes(Transferred(GetAsset(ws, id).value, newOwner, ts))],
                            if id in transfers then transfers[id := transfers[id] + 1] else transfers,
                            registeredBy)
  {
    var a := GetAsset(ws, id).value;
    TransferAppendsOne(a, newOwner, ts);
    if id in transfers {
      assert Transferred(a, newOwner, ts).history[0] == a.history[0];
    }
  }

  class MedGuardChaincode {
    /** The ledger's world state as seen through the stub. */
    var ledger: WorldState
    /** For batches registered through this contract: the number of transfers since. */
    ghost var transfers: map<string, nat>
    /** For batches registered through this contract: the manufacturer that registered them. */
    ghost var registeredBy: map<string, string>

    ghost predicate Valid()
      reads this
    {
      LedgerInvariant(ledger, transfers, registeredBy)
    }

    /** A chaincode over a world state that other writers may already have filled. */
    constructor(initial: WorldState)
      ensures Valid()
      ensures ledger == initial && transfers == map[] && registeredBy == map[]
    {
      ledger := initial;
      transfers := map[];
      registeredBy := map[];
    }

    /** register_drug_batch: refused, with nothing written, when the key already exists;
        otherwise the new asset is written under the batch number and returned. */
    method RegisterDrugBatch(txTimestamp: string, batchNumber: string, drugName: string, manufacturer: string,
                             mfgDate: string, expiryDate: string) returns (r: Result<DrugAsset>)
      requires Valid()
      modifies this
      ensures Valid()
      ensures AssetExists(old(ledger), batchNumber) ==>
        r == Err(AlreadyExists(batchNumber)) && ledger == old(ledger)
        && transfers == old(transfers) && registeredBy == old(registeredBy)
      ensures !AssetExists(old(ledger), batchNumber) ==>
        && r == Ok(NewAsset(batchNumber, drugName, manufacturer, mfgDate, expiryDate, txTimestamp))
        && ledger == old(ledger)[batchNumber := Bytes(r.value)]
        && transfers == old(transfers)[batchNumber := 0]
        && registeredBy == old(registeredBy)[batchNumber := manufacturer]
    {
      if batchNumber in ledger {
        return Err(AlreadyExists(batchNumber));
      }
      var asset := NewAsset(batchNumber, drugName, manufacturer, mfgDate, expiryDate, txTimestamp);
      RegisterKeepsInvariant(ledger, transfers, registeredBy, asset, txTimestamp);
      ledger := ledger[batchNumber := Bytes(asset)];
      transfers := transfers[batchNumber := 0];
      registeredBy := registeredBy[batchNumber := manufacturer];
      r := Ok(asset);
    }

    /** transfer_drug_ownership: refused when no asset can be read under the key; otherwise the
        owner is replaced, one entry appended, and only that key rewritten. */
    method TransferDrugOwnership(txTimestamp: string, batchNumber: string, newOwner: string) returns (r: Result<DrugAsset>)
      requires Valid()
      modifies this
      ensures Valid()
      ensures GetAsset(old(ledger), batchNumber).None? ==>
        r == Err(DoesNotExist(batchNumber)) && ledger == old(ledger)
        && transfers == old(transfers) && registeredBy == old(registeredBy)
      ensures GetAsset(old(ledger), batchNumber).Some? ==>
        && r == Ok(Transferred(GetAsset(old(ledger), batchNumber).value, newOwner, txTimestamp))
        && ledger == old(ledger)[batchNumber := Bytes(r.value)]
        && registeredBy == old(registeredBy)
        && transfers == if batchNumber in old(transfers) then old(transfers)[batchNumber := old(transfers)[batchNumber] + 1]
                        else old(transfers)
    {
      var current := GetAsset(ledger, batchNumber);
      if current.None? {
        return Err(DoesNotExist(batchNumber));
      }
      var asset := Transferred(current.value, newOwner, txTimestamp);
      TransferKeepsInvariant(ledger, transfers, registeredBy, batchNumber, newOwner, txTimestamp);
      ledger := ledger[batchNumber := Bytes(asset)];
      if batchNumber in transfers {
        transfers := transfers[batchNumber := transfers[batchNumber] + 1];
      }
      r := Ok(asset);
    }

    /** query_drug_history: the stored history, or the refusal; the ledger is only read. */
    method QueryDrugHistory(batchNumber: string) returns (r: Result<seq<string>>)
      requires Valid()
      ensures GetAsset(ledger, batchNumber).None? <==> r == Err(DoesNotExist(batchNumber))
      ensures GetAsset(ledger, batchNumber).Some? ==> r == Ok(GetAsset(ledger, batchNumber).value.history)
      ensures batchNumber in transfers ==> r.Ok? && |r.value| == 1 + transfers[batchNumber]
    {
      var current := GetAsset(ledger, batchNumber);
      if current.None? {
        return Err(DoesNotExist(batchNumber));
      }
      r := Ok(current.value.history);
    }
  }
}
