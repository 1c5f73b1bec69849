/**
 * Sequences of transactions on a fresh stub and what they yield, derived from
 * the operations' contracts alone. The first four hold for every starting state
 * and request that meet their preconditions; the rest start from fixed states.
 */
module Scenarios {
  import opened Wrappers
  import opened KeyOrder
  import opened Assets
  import opened WorldState
  import opened SmartContract

  /** A request that names only an asset id. */
  function IdRequest(id: string): JsonText
  {
    Some(JObject(map["asset_id" := JString(id)]))
  }

  /** After a successful create, the id exists and reading it back gives the created record. */
  method CreateThenRead(initial: map<string, JsonText>, request: JsonText)
    returns (created: Result<string, Error>, present: bool, read: Result<Asset, Error>)
    requires Unmarshal(request).Ok? && Unmarshal(request).value.id !in initial
    ensures created == Ok("CreateAsset OK")
    ensures present
    ensures read == Unmarshal(request)
  {
    var stub := new Stub(initial);
    var asset := Unmarshal(request).value;
    created := CreateAsset(stub, request);
    present := AssetExists(stub, asset.id);
    UnmarshalIdOnly(asset.id);
    UnmarshalMarshal(asset);
    read := ReadAsset(stub, IdRequest(asset.id));
  }

  /** Creating the same record twice: the second call fails with AlreadyExists and writes nothing. */
  method DuplicateCreate(initial: map<string, JsonText>, request: JsonText)
    returns (second: Result<string, Error>, afterFirst: map<string, JsonText>, afterSecond: map<string, JsonText>)
    requires Unmarshal(request).Ok?
    ensures second == Err(AlreadyExists(Unmarshal(request).value.id))
    ensures afterSecond == afterFirst
    ensures Unmarshal(request).value.id in afterFirst
  {
    var stub := new Stub(initial);
    var first := CreateAsset(stub, request);
    afterFirst := stub.state;
    second := CreateAsset(stub, request);
    afterSecond := stub.state;
  }

  /** Read, update, delete and transfer of an id that was never stored all fail with NotFound and write nothing. */
  method MissingTarget(initial: map<string, JsonText>, request: JsonText)
    returns (read: Result<Asset, Error>, updated: Result<string, Error>, deleted: Result<string, Error>,
             transferred: Result<string, Error>, final: map<string, JsonText>)
    requires Unmarshal(request).Ok? && Unmarshal(request).value.id !in initial
    ensures read == Err(NotFound(Unmarshal(request).value.id))
    ensures var missing := Err(NotFound(Unmarshal(request).value.id));
      updated == missing && deleted == missing && transferred == missing
    ensures final == initial
  {
    var stub := new Stub(initial);
    read := ReadAsset(stub, request);
    updated := UpdateAsset(stub, request);
    deleted := DeleteAsset(stub, request);
    transferred := TransferAsset(stub, request);
    final := stub.state;
  }

  /** Deleting a stored id and then reading it fails with NotFound. */
  method DeleteThenRead(initial: map<string, JsonText>, id: string)
    returns (deleted: Result<string, Error>, read: Result<Asset, Error>)
    requires id in initial
    ensures deleted == Ok("CreateAsset OK")
    ensures read == Err(NotFound(id))
  {
    var stub := new Stub(initial);
    UnmarshalIdOnly(id);
    deleted := DeleteAsset(stub, IdRequest(id));
    read := ReadAsset(stub, IdRequest(id));
  }

  /** Transferring asset1 to Bob changes its owner and keeps its color, size and appraised value. */
  method TransferToBob() returns (transferred: Result<string, Error>, stored: Result<Asset, Error>)
    ensures transferred == Ok("TransferAsset OK")
    ensures stored == Ok(Asset("asset1", "blue", 5, "Bob", 300))
  {
    var tomoko := Asset("asset1", "blue", 5, "Tomoko", 300);
    UnmarshalMarshal(tomoko);
    var stub := new Stub(map["asset1" := Marshal(tomoko)]);
    var request := Some(JObject(map["asset_id" := JString("asset1"), "owner" := JString("Bob")]));
    transferred := TransferAsset(stub, request);
    UnmarshalIdOnly("asset1");
    stored := ReadAsset(stub, IdRequest("asset1"));
  }

  /** The seed ids, asset1 to asset6. */
  const SeedIdList: seq<string> := ["asset1", "asset2", "asset3", "asset4", "asset5", "asset6"]

  lemma SeedIdListSorted()
    ensures StrictlySorted(SeedIdList)
  {
    forall i, j | 0 <= i < j < |SeedIdList|
      ensures KeyLess(SeedIdList[i], SeedIdList[j])
    {
      var p, c, d := "asset", SeedIdList[i][5], SeedIdList[j][5];
      assert SeedIdList[i] == p + [c] && SeedIdList[j] == p + [d];
      KeyLessAtFirstDifference(p, c, d);
    }
  }

  lemma SeedIdListMatches()
    ensures |SeedIdList| == |Seeds|
    ensures forall i :: 0 <= i < |Seeds| ==> SeedIdList[i] == Seeds[i].id
  {
    forall i | 0 <= i < |Seeds|
      ensures SeedIdList[i] == Seeds[i].id
    {
      if i == 0 {} else if i == 1 {} else if i == 2 {} else if i == 3 {} else if i == 4 {} else {}
    }
  }

  /** The seed ids in scan order. */
  lemma SeedScanOrder()
    ensures SortedKeys(SeedWrites(|Seeds|).Keys) == SeedIdList
  {
    SeedIdListSorted();
    SeedWritesContents();
    assert forall k :: k in SeedIdList <==> k in SeedWrites(|Seeds|).Keys;
    SortedKeysUnique(SeedIdList, SeedWrites(|Seeds|).Keys);
  }

  /** In the seeded ledger the value under the i-th key in scan order decodes to the i-th seed. */
  lemma SeedEntries(state: map<string, JsonText>)
    requires state == map[] + SeedWrites(|Seeds|)
    ensures |state| == |Seeds|
    ensures forall i :: 0 <= i < |Seeds| ==> Unmarshal(state[SortedKeys(state.Keys)[i]]) == Ok(Seeds[i])
  {
    assert state == SeedWrites(|Seeds|);
    SeedScanOrder();
    SeedIdListMatches();
    SeedWritesContents();
    forall i | 0 <= i < |Seeds|
      ensures Unmarshal(state[SortedKeys(state.Keys)[i]]) == Ok(Seeds[i])
    {
      UnmarshalMarshal(Seeds[i]);
    }
  }

  /** A listing of the seeded ledger, decoded key by key in scan order, is the seed records. */
  lemma SeedListing(state: map<string, JsonText>, assets: seq<Asset>)
    requires state == map[] + SeedWrites(|Seeds|)
    requires |assets| == |state|
    requires forall i :: 0 <= i < |assets| ==> Ok(assets[i]) == Unmarshal(state[SortedKeys(state.Keys)[i]])
    ensures assets == Seeds
  {
    SeedEntries(state);
  }

  /** Seeding an empty ledger and listing it gives exactly the six seed assets, asset1 to asset6 in order. */
  method SeedThenList() returns (listing: Result<seq<Asset>, Error>)
    ensures listing == Ok(Seeds)
  {
    var stub := new Stub(map[]);
    InitLedger(stub);
    ConsistentSeeded(stub.state);
    listing := GetAllAssets(stub);
    SeedListing(stub.state, listing.value);
  }

  /** The seeded ledger is consistent. */
  lemma ConsistentSeeded(state: map<string, JsonText>)
    requires state == map[] + SeedWrites(|Seeds|)
    ensures Consistent(state)
  {
    assert state == SeedWrites(|Seeds|);
    ConsistentSeedWrites(|Seeds|);
  }

  /** In the seeded ledger asset7 is free and asset2 is stored. */
  lemma SeededIds(state: map<string, JsonText>)
    requires state == map[] + SeedWrites(|Seeds|)
    ensures "asset7" !in state && "asset2" in state
  {
    assert state == SeedWrites(|Seeds|);
    SeedWritesContents();
    forall i | 0 <= i < |SeedIdList|
      ensures SeedIdList[i] != "asset7"
    {
      assert SeedIdList[i][5] != "asset7"[5];
    }
    assert forall k :: k in state <==> k in SeedIdList;
  }

  /** After seeding, creating asset7 and deleting asset2, the listing holds asset7 and no asset2. */
  method ListingAfterChanges() returns (listing: Result<seq<Asset>, Error>)
    ensures listing.Ok?
    ensures Asset("asset7", "purple", 20, "Bob", 900) in listing.value
    ensures forall a :: a in listing.value ==> a.id != "asset2"
  {
    var stub := new Stub(map[]);
    InitLedger(stub);
    ConsistentSeeded(stub.state);
    SeededIds(stub.state);
    var asset7 := Asset("asset7", "purple", 20, "Bob", 900);
    UnmarshalMarshal(asset7);
    var created := CreateAsset(stub, Marshal(asset7));
    UnmarshalIdOnly("asset2");
    var deleted := DeleteAsset(stub, IdRequest("asset2"));
    listing := GetAllAssets(stub);
  }
}
