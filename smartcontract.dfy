/**
 * The asset-registry smart contract: seven transactions and one query over
 * the world state, each taking the stub that `ctx.GetStub()` returns. Every
 * request is decoded before the world state is consulted, and every existence
 * check comes before the write it guards, so a failing call writes nothing.
 */
module SmartContract {
  import opened Wrappers
  import opened KeyOrder
  import opened Assets
  import opened WorldState

  /** Every stored value decodes to a record whose id is the key it is stored under. */
  ghost predicate Consistent(state: map<string, JsonText>)
  {
    forall k :: k in state ==> Unmarshal(state[k]).Ok? && Unmarshal(state[k]).value.id == k
  }

  /** Storing a record under its own id keeps the world state consistent. */
  lemma ConsistentPut(state: map<string, JsonText>, a: Asset)
    requires Consistent(state)
    ensures Consistent(state[a.id := Marshal(a)])
  {
    UnmarshalMarshal(a);
  }

  /** The base set of assets InitLedger writes. */
  const Seeds: seq<Asset> := [
    Asset("asset1", "blue", 5, "Tomoko", 300),
    Asset("asset2", "red", 5, "Brad", 400),
    Asset("asset3", "green", 10, "Jin Soo", 500),
    Asset("asset4", "yellow", 10, "Max", 600),
    Asset("asset5", "black", 15, "Adriana", 700),
    Asset("asset6", "white", 15, "Michel", 800)
  ]

  /** The entries the first `n` iterations of InitLedger's loop write, each seed under its own id. */
  function SeedWrites(n: nat): map<string, JsonText>
    requires n <= |Seeds|
  {
    if n == 0 then map[]
    else SeedWrites(n - 1)[Seeds[n - 1].id := Marshal(Seeds[n - 1])]
  }

  lemma UnionUpdate(a: map<string, JsonText>, b: map<string, JsonText>, k: string, v: JsonText)
    ensures (a + b)[k := v] == a + b[k := v]
  {
  }

  lemma ConsistentUnion(a: map<string, JsonText>, b: map<string, JsonText>)
    requires Consistent(a) && Consistent(b)
    ensures Consistent(a + b)
  {
  }

  /** Every seed is written under its own id, so the seed entries are consistent. */
  lemma {:induction false} ConsistentSeedWrites(n: nat)
    requires n <= |Seeds|
    ensures Consistent(SeedWrites(n))
  {
    if n > 0 {
      ConsistentSeedWrites(n - 1);
      ConsistentPut(SeedWrites(n - 1), Seeds[n - 1]);
    }
  }

  /** The seed entries are exactly asset1 to asset6, each holding its seed record. */
  lemma SeedWritesContents()
    ensures SeedWrites(|Seeds|).Keys == {"asset1", "asset2", "asset3", "asset4", "asset5", "asset6"}
    ensures forall i :: 0 <= i < |Seeds| ==> SeedWrites(|Seeds|)[Seeds[i].id] == Marshal(Seeds[i])
  {
  }

  /** Writes the six seed assets, overwriting whatever their ids held, with no existence check. */
  method InitLedger(stub: Stub)
    modifies stub
    ensures stub.state == old(stub.state) + SeedWrites(|Seeds|)
    ensures Consistent(old(stub.state)) ==> Consistent(stub.state)
  {
    for i := 0 to |Seeds|
      invariant stub.state == old(stub.state) + SeedWrites(i)
    {
      var asset := Seeds[i];
      UnionUpdate(old(stub.state), SeedWrites(i), asset.id, Marshal(asset));
      stub.PutState(asset.id, Marshal(asset));
    }
    if Consistent(old(stub.state)) {
      ConsistentSeedWrites(|Seeds|);
      ConsistentUnion(old(stub.state), SeedWrites(|Seeds|));
    }
  }

  /** True exactly when the world state holds a value for `id`. */
  method AssetExists(stub: Stub, id: string) returns (present: bool)
    ensures present <==> id in stub.state
  {
    var value := stub.GetState(id);
    present := value.Some?;
  }

  /** Stores the decoded request under its id, provided that id is not yet present. */
  method CreateAsset(stub: Stub, request: JsonText) returns (r: Result<string, Error>)
    modifies stub
    ensures Unmarshal(request).Err? ==> r == Err(DecodeError) && stub.state == old(stub.state)
    ensures Unmarshal(request).Ok? && Unmarshal(request).value.id in old(stub.state) ==>
              r == Err(AlreadyExists(Unmarshal(request).value.id)) && stub.state == old(stub.state)
    ensures Unmarshal(request).Ok? && Unmarshal(request).value.id !in old(stub.state) ==>
              var asset := Unmarshal(request).value;
              r == Ok("CreateAsset OK") && stub.state == old(stub.state)[asset.id := Marshal(asset)]
    ensures Consistent(old(stub.state)) ==> Consistent(stub.state)
  {
    var decoded := Unmarshal(request);
    if decoded.Err? {
      return Err(DecodeError);
    }
    var asset := decoded.value;
    var present := AssetExists(stub, asset.id);
    if present {
      return Err(AlreadyExists(asset.id));
    }
    UnmarshalMarshal(asset);
    stub.PutState(asset.id, Marshal(asset));
    return Ok("CreateAsset OK");
  }

  /** Returns the record stored under the request's id, decoded. */
  method ReadAsset(stub: Stub, request: JsonText) returns (r: Result<Asset, Error>)
    ensures Unmarshal(request).Err? ==> r == Err(DecodeError)
    ensures Unmarshal(request).Ok? && Unmarshal(request).value.id !in stub.state ==>
              r == Err(NotFound(Unmarshal(request).value.id))
    ensures Unmarshal(request).Ok? && Unmarshal(request).value.id in stub.state ==>
              r == Unmarshal(stub.state[Unmarshal(request).value.id])
    ensures Consistent(stub.state) && Unmarshal(request).Ok? && Unmarshal(request).value.id in stub.state ==>
              r.Ok? && r.value.id == Unmarshal(request).value.id
  {
    var decoded := Unmarshal(request);
    if decoded.Err? {
      return Err(DecodeError);
    }
    var id := decoded.value.id;
    var stored := stub.GetState(id);
    if stored.None? {
      return Err(NotFound(id));
    }
    r := Unmarshal(stored.value);
  }

  /** Replaces the whole record stored under the request's id, provided that id is present. */
  method UpdateAsset(stub: Stub, request: JsonText) returns (r: Result<string, Error>)
    modifies stub
    ensures Unmarshal(request).Err? ==> r == Err(DecodeError) && stub.state == old(stub.state)
    ensures Unmarshal(request).Ok? && Unmarshal(request).value.id !in old(stub.state) ==>
              r == Err(NotFound(Unmarshal(request).value.id)) && stub.state == old(stub.state)
    ensures Unmarshal(request).Ok? && Unmarshal(request).value.id in old(stub.state) ==>
              var asset := Unmarshal(request).value;
              r == Ok("UpdateAsset OK") && stub.state == old(stub.state)[asset.id := Marshal(asset)]
    ensures Consistent(old(stub.state)) ==> Consistent(stub.state)
  {
    var decoded := Unmarshal(request);
    if decoded.Err? {
      return Err(DecodeError);
    }
    var asset := decoded.value;
    var present := AssetExists(stub, asset.id);
    if !present {
      return Err(NotFound(asset.id));
    }
    UnmarshalMarshal(asset);
    stub.PutState(asset.id, Marshal(asset));
    return Ok("UpdateAsset OK");
  }

  /** Removes the request's id, provided it is present; the status text is CreateAsset's, as the contract returns it. */
  method DeleteAsset(stub: Stub, request: JsonText) returns (r: Result<string, Error>)
    modifies stub
    ensures Unmarshal(request).Err? ==> r == Err(DecodeError) && stub.state == old(stub.state)
    ensures Unmarshal(request).Ok? && Unmarshal(request).value.id !in old(stub.state) ==>
              r == Err(NotFound(Unmarshal(request).value.id)) && stub.state == old(stub.state)
    ensures Unmarshal(request).Ok? && Unmarshal(request).value.id in old(stub.state) ==>
              r == Ok("CreateAsset OK") && stub.state == old(stub.state) - {Unmarshal(request).value.id}
    ensures Consistent(old(stub.state)) ==> Consistent(stub.state)
  {
    var decoded := Unmarshal(request);
    if decoded.Err? {
      return Err(DecodeError);
    }
    var id := decoded.value.id;
    var present := AssetExists(stub, id);
    if !present {
      return Err(NotFound(id));
    }
    stub.DelState(id);
    return Ok("CreateAsset OK");
  }

  /**
   * Gives the record stored under the request's id the request's owner; every
   * other field comes from the stored record, not from the request.
   */
  method TransferAsset(stub: Stub, request: JsonText) returns (r: Result<string, Error>)
    modifies stub
    ensures Unmarshal(request).Err? ==> r == Err(DecodeError) && stub.state == old(stub.state)
    ensures Unmarshal(request).Ok? && Unmarshal(request).value.id !in old(stub.state) ==>
              r == Err(NotFound(Unmarshal(request).value.id)) && stub.state == old(stub.state)
    ensures Unmarshal(request).Ok? && Unmarshal(request).value.id in old(stub.state) ==>
              var id := Unmarshal(request).value.id;
              var stored := Unmarshal(old(stub.state)[id]);
              && (stored.Err? ==> r == Err(DecodeError) && stub.state == old(stub.state))
              && (stored.Ok? ==>
                    && r == Ok("TransferAsset OK")
                    && stub.state == old(stub.state)[id := Marshal(stored.value.(owner := Unmarshal(request).value.owner))])
    ensures Consistent(old(stub.state)) && Unmarshal(request).Ok? && Unmarshal(request).value.id in old(stub.state) ==>
              var transfer := Unmarshal(request).value;
              var before := Unmarshal(old(stub.state)[transfer.id]).value;
              && r == Ok("TransferAsset OK")
              && Unmarshal(stub.state[transfer.id]) ==
                   Ok(Asset(transfer.id, before.color, before.size, transfer.owner, before.appraisedValue))
    ensures Consistent(old(stub.state)) ==> Consistent(stub.state)
  {
    var decoded := Unmarshal(request);
    if decoded.Err? {
      return Err(DecodeError);
    }
    var transfer := decoded.value;
    var present := AssetExists(stub, transfer.id);
    if !present {
      return Err(NotFound(transfer.id));
    }
    var current := ReadAsset(stub, request);
    if current.Err? {
      return Err(current.error);
    }
    var asset := current.value.(owner := transfer.owner);
    UnmarshalMarshal(asset);
    stub.PutState(transfer.id, Marshal(asset));
    return Ok("TransferAsset OK");
  }

  /** `assets` are the records stored under `keys`, one for one, each decoded. */
  ghost predicate Listed(state: map<string, JsonText>, keys: seq<string>, assets: seq<Asset>)
  {
    && |keys| == |assets|
    && forall i :: 0 <= i < |keys| ==> keys[i] in state && Unmarshal(state[keys[i]]) == Ok(assets[i])
  }

  /**
   * The range scan so far: `scanned` are the keys already yielded, in scan
   * order, `assets` their decoded records, and `unread` the keys still to come.
   */
  ghost predicate ScanProgress(state: map<string, JsonText>, unread: set<string>, scanned: seq<string>, assets: seq<Asset>)
  {
    && scanned + SortedKeys(unread) == SortedKeys(state.Keys)
    && Listed(state, scanned, assets)
  }

  /** Yielding the least unread key and decoding its value advances the scan by one record. */
  lemma ScanStep(state: map<string, JsonText>, unread: set<string>, scanned: seq<string>, assets: seq<Asset>,
                 key: string, asset: Asset)
    requires ScanProgress(state, unread, scanned, assets)
    requires IsLeast(key, unread) && key in state && Unmarshal(state[key]) == Ok(asset)
    ensures ScanProgress(state, unread - {key}, scanned + [key], assets + [asset])
  {
    ScanAdvance(SortedKeys(state.Keys), scanned, unread, key);
    ListedSnoc(state, scanned, assets, key, asset);
  }

  lemma ListedSnoc(state: map<string, JsonText>, keys: seq<string>, assets: seq<Asset>, key: string, asset: Asset)
    requires Listed(state, keys, assets)
    requires key in state && Unmarshal(state[key]) == Ok(asset)
    ensures Listed(state, keys + [key], assets + [asset])
  {
  }

  /** A scan with no key left to read has listed every stored record, in scan order. */
  lemma ScanDone(state: map<string, JsonText>, scanned: seq<string>, assets: seq<Asset>)
    requires ScanProgress(state, {}, scanned, assets)
    ensures forall k :: k in state ==> Unmarshal(state[k]).Ok?
    ensures |assets| == |state|
    ensures forall i :: 0 <= i < |assets| ==> Ok(assets[i]) == Unmarshal(state[SortedKeys(state.Keys)[i]])
  {
    var keys := SortedKeys(state.Keys);
    forall k | k in state
      ensures Unmarshal(state[k]).Ok?
    {
      var i :| 0 <= i < |keys| && keys[i] == k;
    }
  }

  /** In a consistent world state the listing holds every stored record and nothing else. */
  lemma ConsistentListing(state: map<string, JsonText>, assets: seq<Asset>)
    requires Consistent(state)
    requires |assets| == |state|
    requires forall i :: 0 <= i < |assets| ==> Ok(assets[i]) == Unmarshal(state[SortedKeys(state.Keys)[i]])
    ensures forall a :: a in assets <==> a.id in state && Unmarshal(state[a.id]) == Ok(a)
  {
    var keys := SortedKeys(state.Keys);
    forall a
      ensures a in assets <==> a.id in state && Unmarshal(state[a.id]) == Ok(a)
    {
      if a in assets {
        var i :| 0 <= i < |assets| && assets[i] == a;
        assert keys[i] in state;
      }
      if a.id in state && Unmarshal(state[a.id]) == Ok(a) {
        var i :| 0 <= i < |keys| && keys[i] == a.id;
        assert assets[i] == a;
      }
    }
  }

  /**
   * Every stored record, in range-scan key order. One value that does not
   * decode fails the whole listing, and nothing is returned.
   */
  method GetAllAssets(stub: Stub) returns (r: Result<seq<Asset>, Error>)
    ensures r.Ok? <==> forall k :: k in stub.state ==> Unmarshal(stub.state[k]).Ok?
    ensures r.Err? ==> r.error == DecodeError
    ensures r.Ok? ==> |r.value| == |stub.state|
    ensures r.Ok? ==> forall i :: 0 <= i < |r.value| ==>
              Ok(r.value[i]) == Unmarshal(stub.state[SortedKeys(stub.state.Keys)[i]])
    ensures Consistent(stub.state) ==> r.Ok? && forall a :: a in r.value <==>
              a.id in stub.state && Unmarshal(stub.state[a.id]) == Ok(a)
  {
    var it := stub.GetStateByRange();
    var assets: seq<Asset> := [];
    ghost var scanned: seq<string> := [];
    var more := it.HasNext();
    while more
      invariant it.Valid() && it.snapshot == stub.state
      invariant more <==> it.pending != {}
      invariant ScanProgress(stub.state, it.pending, scanned, assets)
      decreases |it.pending|
    {
      ghost var unread := it.pending;
      var key, value := it.Next();
      var decoded := Unmarshal(value);
      if decoded.Err? {
        return Err(DecodeError);
      }
      ScanStep(stub.state, unread, scanned, assets, key, decoded.value);
      assets := assets + [decoded.value];
      scanned := scanned + [key];
      more := it.HasNext();
    }
    ScanDone(stub.state, scanned, assets);
    if Consistent(stub.state) {
      ConsistentListing(stub.state, assets);
    }
    return Ok(assets);
  }
}
