# Asset registry chaincode, modelled in Dafny

The repository is a Hyperledger Fabric smart contract (`chaincode/smartcontract.go`).
It keeps an asset registry in the ledger's world state. The registry is a key-value table from an
asset id to the JSON encoding of an `Asset` record (id, color, size, owner, appraised value).
Eight operations sit on top of it:

- `InitLedger` seeds six fixed assets.
- `CreateAsset`, `ReadAsset`, `UpdateAsset`, `DeleteAsset` and `TransferAsset` take a JSON request.
- `AssetExists` answers whether an id is stored.
- `GetAllAssets` lists every record by an open-ended range scan.

The model keeps the source's imperative shape:

- `WorldState.Stub` is a class holding the world state as `state: map<string, JsonText>`.
  It stands for what `ctx.GetStub()` reaches. `GetState`, `PutState`, `DelState` and
  `GetStateByRange` are its methods, and `RangeIterator` is the scan's `HasNext`/`Next` iterator.
- Each contract operation is a method in module `SmartContract`. It takes the stub and the request and
  returns `Result<_, Error>`, with `Error` = `DecodeError | AlreadyExists(id) | NotFound(id)`.
  Each operation makes the same checks, in the same order, as the Go code.
- JSON is modelled at the level of the parsed value (`Assets.Json`). `JsonText` is that value, or
  `None` for text that is not well-formed JSON.
- `Assets.Unmarshal` follows Go's `encoding/json` decoding into the `Asset` struct. A top-level
  `null` gives the zero record. A missing or `null` member keeps its zero value. A member of the
  wrong type, or an integer outside Go's 64-bit `int`, is an error. Any other top-level value is an
  error too.
- `Assets.Marshal` writes the five tagged members. `GoInt` is Go's 64-bit `int`.
- The world state stores JSON, not records. So a stored value that does not decode is a
  `DecodeError` in `ReadAsset`, `TransferAsset` and `GetAllAssets`, as in the source.
- `SmartContract.Consistent` is the invariant "every stored value decodes to a record whose id is its
  key". Every mutating operation preserves it.
- The range scan yields keys in byte-wise order of their UTF-8 encodings. That equals lexicographic
  order on code points, `KeyOrder.KeyLess`. `KeyOrder.SortedKeys` is the scan order of a key set,
  and `SortedKeysUnique` shows that this order is fully determined by the set.
- Module `Scenarios` states what sequences of transactions on a fresh stub yield.
  `CreateThenRead`, `DuplicateCreate`, `MissingTarget` and `DeleteThenRead` hold for every starting
  state and request that meet their preconditions. `TransferToBob`, `SeedThenList` and
  `ListingAfterChanges` start from fixed states.

Three behaviours of the code are easy to misread:

- A request that leaves out members is not a decode error. Go fills those fields with zero values.
  For example, a transfer request without `owner` gives the asset the owner `""`.
- `DeleteAsset` returns the status `"CreateAsset OK"`, as written in the code.
- `InitLedger` returns no value. The Go function returns only an error, and in the model no error
  can arise.

## Model

| member | source | states |
|---|---|---|
| `SmartContract.InitLedger` | chaincode/smartcontract.go:25-48 | the new world state is the old one with the six seed entries written over it, with no existence check; consistency is preserved |
| `SmartContract.SeedWritesContents` | chaincode/smartcontract.go:26-33 | the seed entries are exactly the keys asset1..asset6, and each holds its seed record's encoding |
| `SmartContract.ConsistentSeedWrites` | chaincode/smartcontract.go:35-45 | each seed is written under its own id, so the seed entries decode to records keyed by their ids |
| `SmartContract.CreateAsset` | chaincode/smartcontract.go:51-78 | a malformed request gives DecodeError and writes nothing; an id already present gives AlreadyExists and writes nothing; otherwise the request record is stored under its id, no other key changes, and the status is "CreateAsset OK" |
| `SmartContract.ConsistentPut` | chaincode/smartcontract.go:67-72 | storing a record's encoding under its own id keeps every stored value decoding to a record keyed by its id |
| `SmartContract.ReadAsset` | chaincode/smartcontract.go:81-103 | a malformed request gives DecodeError; an absent id gives NotFound; otherwise the result is the decoding of the stored value; in a consistent state it succeeds and carries the requested id; the state is never changed |
| `SmartContract.UpdateAsset` | chaincode/smartcontract.go:106-133 | a malformed request gives DecodeError, and an absent id gives NotFound; both write nothing; otherwise the whole request record replaces the entry, no other key changes, and the status is "UpdateAsset OK" |
| `SmartContract.DeleteAsset` | chaincode/smartcontract.go:136-157 | a malformed request gives DecodeError, and an absent id gives NotFound; both write nothing; otherwise only that id is removed and the status is "CreateAsset OK" |
| `SmartContract.AssetExists` | chaincode/smartcontract.go:160-167 | true exactly when the world state holds a value for the id; nothing is changed |
| `SmartContract.TransferAsset` | chaincode/smartcontract.go:170-201 | a malformed request gives DecodeError, and an absent id gives NotFound; both write nothing; a stored value that does not decode gives DecodeError and writes nothing; otherwise the stored record is rewritten with only its owner replaced by the request's owner, and no other key changes; in a consistent state the new record keeps the stored color, size and appraised value |
| `SmartContract.GetAllAssets` | chaincode/smartcontract.go:204-229 | succeeds exactly when every stored value decodes, and otherwise fails with DecodeError and no partial listing; on success it returns one record per key, the i-th being the decoding of the value under the i-th key in scan order; in a consistent state it holds every stored record and nothing else |
| `SmartContract.ScanStep` | chaincode/smartcontract.go:214-225 | taking the least unread key and appending its decoded record extends the listing by one step of the scan |
| `SmartContract.ScanDone` | chaincode/smartcontract.go:228 | once no key is left unread, every stored value has decoded and the listing has one record per key, in scan order |
| `SmartContract.ConsistentListing` | chaincode/smartcontract.go:204-229 | in a consistent state a full listing holds a record exactly when it is stored under its own id |
| `WorldState.Stub.GetState` | chaincode/smartcontract.go:88 | returns the stored text for a present key, and None (Go's nil) for an absent one |
| `WorldState.Stub.PutState` | chaincode/smartcontract.go:72 | writes the key unconditionally and changes no other key |
| `WorldState.Stub.DelState` | chaincode/smartcontract.go:151 | removes the key and changes no other key |
| `WorldState.Stub.GetStateByRange` | chaincode/smartcontract.go:205-207 | the open-ended scan starts with every key of the world state unread |
| `WorldState.RangeIterator.HasNext` | chaincode/smartcontract.go:214 | true exactly when some key is still unread |
| `WorldState.RangeIterator.Next` | chaincode/smartcontract.go:215 | yields the least unread key with its stored text, and marks that key read |
| `KeyOrder.LeastKey` | chaincode/smartcontract.go:215 | finds the key of a non-empty set that sorts before every other key of the set |
| `KeyOrder.KeyLessIrreflexive` | chaincode/smartcontract.go:205-207 | no key sorts before itself in scan order |
| `KeyOrder.KeyLessTransitive` | chaincode/smartcontract.go:205-207 | scan order is transitive |
| `KeyOrder.KeyLessTotal` | chaincode/smartcontract.go:205-207 | any two distinct keys are ordered one way or the other |
| `KeyOrder.LeastExists` | chaincode/smartcontract.go:214-215 | every non-empty key set has a least key, so a scan always has a next key |
| `KeyOrder.SortedKeys` | chaincode/smartcontract.go:205-207 | the scan order of a key set is strictly increasing and holds each key of the set exactly once |
| `KeyOrder.SortedKeysUnique` | chaincode/smartcontract.go:205-207 | a strictly increasing sequence holding exactly the keys of a set is that set's scan order |
| `Assets.UnmarshalMarshal` | chaincode/smartcontract.go:16-22 | decoding the JSON written for a record gives back that record |
| `Assets.UnmarshalObject` | chaincode/smartcontract.go:53-57 | a request object whose members have the right types decodes; each field is the member given, or its zero value when the member is absent |
| `Assets.UnmarshalIdOnly` | chaincode/smartcontract.go:82-86 | a request naming only an id decodes to that id, with every other field at its zero value |
| `Assets.UnmarshalRejectsNonObject` | chaincode/smartcontract.go:53-57 | text that is not JSON, and JSON that is neither an object nor null, is a decode error |
| `Scenarios.CreateThenRead` | chaincode/smartcontract.go:59-102 | after creating a request record under a free id, the id exists and reading it back by id gives the record |
| `Scenarios.DuplicateCreate` | chaincode/smartcontract.go:59-65 | a second create of the same record fails with AlreadyExists and leaves the world state as the first create left it |
| `Scenarios.MissingTarget` | chaincode/smartcontract.go:81-201 | read, update, delete and transfer of an id never stored each fail with NotFound, and the world state is unchanged |
| `Scenarios.DeleteThenRead` | chaincode/smartcontract.go:136-157 | deleting a stored id succeeds, and reading it afterwards fails with NotFound |
| `Scenarios.TransferToBob` | chaincode/smartcontract.go:184-200 | transferring asset1 (blue, 5, Tomoko, 300) to Bob leaves the stored record (asset1, blue, 5, Bob, 300) |
| `Scenarios.SeedScanOrder` | chaincode/smartcontract.go:26-33 | the seed ids are scanned in the order asset1..asset6 |
| `Scenarios.SeedListing` | chaincode/smartcontract.go:204-229 | a listing of the freshly seeded ledger is exactly the six seed records, in order |
| `Scenarios.SeedThenList` | chaincode/smartcontract.go:25-48 | seeding an empty ledger and listing it returns exactly the six seed records, asset1 first and asset6 last |
| `Scenarios.ListingAfterChanges` | chaincode/smartcontract.go:204-229 | after seeding, creating asset7 and deleting asset2, the listing succeeds, holds the asset7 record and no record with id asset2 |

## Left out

- Failures of the store itself are not modelled. These are I/O errors of `GetState`, `PutState`, `DelState`, `GetStateByRange` and the iterator's `Next`, and the store's fixed rejection of the empty key. A `null` or `{}` request decodes to the id `""`; the model's `CreateAsset` stores that record under `""`, where the store would reject the write. Every model operation therefore succeeds or fails only on decoding and existence.
- The iterator's `Close` (the `defer` at line 211) is not modelled. Resource release has no observable effect on the world state.
- The transaction context, the host runtime's commit and rollback, and endorsement are left out. The model applies each write at once. Each Scenarios step stands for a separate transaction committed before the next. A single operation never reads a key after writing it, so Fabric's lack of read-your-writes inside one transaction does not show.
- JSON text syntax is left out; the model starts from the parsed value. Go's case-insensitive matching of member names is also not modelled, so a member spelled `Owner` counts as absent.
- Error messages are not modelled. Go builds them with `fmt.Errorf` and returns `encoding/json` errors as they are. The model keeps only the error kind and the offending id.
- `GetAllAssets` on an empty world state returns the empty sequence `[]`, where Go returns a nil slice. How the host runtime serialises or checks that nil slice is not modelled.
- Go's `int` is taken to be 64-bit, as on the platforms Fabric peers run on.
