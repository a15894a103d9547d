# Car lifecycle chaincode, modelled in Dafny

This project models the Hyperledger Fabric car chaincode in
`chaincode/car/car.go`. Cars are JSON records kept in the peer's world state
under their `carId`. The manufacturer organisation (`Org1MSP`) creates cars
and assigns dealers. The dealer organisation (`Org2MSP`) sells them. Anyone
may transfer a car from its recorded owner to a new one. Every write is
appended to the key's change log, and `GetHistoryForCar` renders that log
as a JSON array.

The project has three layers.

- **Values**:
  - `CarCodec` holds the `Car` record and its wire format. `Encode` is
    `json.Marshal` of the Go struct as Go 1.22 and later write it: compact,
    the eight fields in declaration order, HTML-safe string escaping, and the
    short escapes `\b` and `\f` (earlier Go releases write `\u0008` and
    `\u000c` instead). `Decode` is the part of
    `json.Unmarshal` that a `Car` payload uses, including the scanner's check
    that only the escapes `\" \\ \/ \b \f \n \r \t \uXXXX` occur in strings. `DecodeLenient` is the
    "ignore the error" read of `car.go:104`, `car.go:147` and `car.go:261`:
    the zero car when unmarshalling fails.
  - `JsonText` does the string escaping and parsing below that.
  - `Ledger` is the world state (a value map and a per-key log) and the
    stub's `PutState`, which refuses the empty key.
- **Specification**: `Contract` gives each transaction as a function from the
  world before it to the reply and the world after it. `ContractProperties`
  proves what the code promises about these functions. `History` specifies
  the history rendering; its loop is proved against that specification.
- **Imperative code**: `Chaincode.Stub` is a class whose `state` and `log`
  maps are updated in place. The transaction methods run the Go code's steps
  in order against it. Each is proved to produce exactly the reply and new
  world that its `Contract` function gives. `Scenarios` proves the whole
  lifecycle, on the functions and on a fresh stub.

Three behaviours of the code differ from what one might expect of a car
lifecycle. The model follows the code:

- One might expect status to move only forward (`"" → READY_FOR_SALE →
  SOLD`). In the code, `UpdateDealer` resets a `SOLD` car to
  `READY_FOR_SALE` (`UpdateDealerReopensSoldCar`).
- The code has an "already sold" refusal for a sold car, but the not-on-sale
  check comes first, so that message is never produced
  (`SellCarNeverReportsAlreadySold`).
- Status is not an enumeration: the code stores any string, and so does the
  model. Manufacture stores the status verbatim.

Inputs that Go code gets from its environment are parameters here:

- `Tx` carries the caller's MSP id, or the identity service's error. It also
  carries the transaction id and the timestamp.
- The history iterator is a sequence of steps, each an entry or an error.
- The timestamp text (`time.Unix(...).String()`) is a function parameter
  `formatTime`.

Strings and byte slices are both `seq<char>`.

## Model

| member | source | states |
|---|---|---|
| CarCodec.DecodeEncode | chaincode/car/car.go:53-58 | unmarshalling the marshalled form of any car gives back exactly that car |
| CarCodec.EncodeInjective | chaincode/car/car.go:58 | two different cars never marshal to the same text |
| CarCodec.DecodeLenientEncode | chaincode/car/car.go:147 | reading a stored marshalled car leniently gives that car |
| CarCodec.Decode | chaincode/car/car.go:53-56 | a payload that is empty or all whitespace is an unmarshal error |
| CarCodec.QuoteEscapeUndecodable | chaincode/car/car.go:53-56 | the payload `{"carId":"\'"}` is an unmarshal error, because `\'` is not a JSON escape |
| JsonText.ShortEscapes | chaincode/car/car.go:53-56 | a backslash followed by anything but `u` is accepted in a string exactly when it is one of the eight escapes JSON defines |
| JsonText.EscapeIsSafe | chaincode/car/car.go:58 | a marshalled string holds no raw control character and no `<`, `>` or `&` |
| JsonText.ParseQuoted | chaincode/car/car.go:53 | a marshalled string parses back to itself and leaves the rest of the input untouched |
| Ledger.Put | chaincode/car/car.go:71 | an accepted write sets the key's value, appends one entry to its log, and leaves every other key's value and log as they were |
| Ledger.PutConsistent | chaincode/car/car.go:71 | an accepted write keeps every log non-empty and ending in the key's current value |
| Ledger.ConsistentHistory | chaincode/car/car.go:200 | in a consistent world a key has a value exactly when it has a history, and its last entry is that value |
| ContractProperties.ManufactureOnlyByManufacturer | chaincode/car/car.go:38-45 | a caller whose MSP id is not `Org1MSP`, or cannot be read, is refused whatever the payload, and nothing is written: an unreadable identity gets "failed to get MSPID: " and the identity service's error, any other organisation gets the manufacture refusal |
| ContractProperties.ManufactureEmptyPayload | chaincode/car/car.go:47-49 | the manufacturer's empty payload is refused with "please pass the correct Car data" and nothing is written |
| ContractProperties.ManufactureDuplicate | chaincode/car/car.go:63-69 | a payload whose id is already stored is refused with "Car with CarId … already exists", and the stored entry is unchanged |
| ContractProperties.ManufactureSucceeds | chaincode/car/car.go:35-71 | manufacture succeeds exactly for the manufacturer with a non-empty payload that decodes to a car with a fresh, non-empty id; it then stores the re-marshalled car under that id, and reading it back gives the decoded car, its status verbatim |
| ContractProperties.ManufactureStoresReencoded | chaincode/car/car.go:58-71 | what is stored is the re-marshalled car, not the payload text: a payload with leading whitespace is stored without it |
| ContractProperties.ManufactureUndecodable | chaincode/car/car.go:53-56 | the manufacturer's non-empty payload that does not unmarshal is refused with "failed while unmarshling car data" and nothing is written |
| ContractProperties.ManufactureRejectsQuoteEscape | chaincode/car/car.go:53-56 | the manufacturer's payload `{"carId":"\'"}` is refused as undecodable and nothing is written |
| ContractProperties.UpdateDealerSucceeds | chaincode/car/car.go:76-114 | the update succeeds exactly for the manufacturer naming a stored car whose stored id is not empty; the car then has the new dealer, status READY_FOR_SALE and all other fields unchanged, written under the id read from the stored car |
| ContractProperties.UpdateDealerOnlyByManufacturer | chaincode/car/car.go:79-86 | a caller whose MSP id is not `Org1MSP`, or cannot be read, is refused and nothing is written: an unreadable identity gets "failed to get MSPID: " and the identity service's error, any other organisation gets the dealer-update refusal |
| ContractProperties.UpdateDealerMissingId | chaincode/car/car.go:88-90 | the manufacturer's update with an empty car id is refused with "please pass the correct Car ID" and nothing is written |
| ContractProperties.UpdateDealerReopensSoldCar | chaincode/car/car.go:106-107 | a SOLD car given a dealer goes back to READY_FOR_SALE; the prior status is not checked |
| ContractProperties.UpdateDealerOnUndecodableValue | chaincode/car/car.go:103-114 | a stored value that does not unmarshal is read as the zero car, so the write goes to the empty key and the store's refusal is returned |
| ContractProperties.SellCarSucceeds | chaincode/car/car.go:119-165 | the sale succeeds exactly for the dealer naming a stored car with status READY_FOR_SALE and a non-empty stored id; the car then has the buyer as owner, status SOLD and all other fields unchanged |
| ContractProperties.SellCarOnlyByDealer | chaincode/car/car.go:122-129 | a caller whose MSP id is not `Org2MSP`, or cannot be read, is refused and nothing is written: an unreadable identity gets "failed to get MSPID: " and the identity service's error, any other organisation gets the sale refusal |
| ContractProperties.SellCarMissingId | chaincode/car/car.go:131-133 | the dealer's sale with an empty car id is refused with "please pass the correct Car ID" and nothing is written |
| ContractProperties.SellCarNotOnSale | chaincode/car/car.go:149-151 | a car whose status is not READY_FOR_SALE, SOLD included, is refused as not on sale and nothing is written |
| ContractProperties.SellCarNeverReportsAlreadySold | chaincode/car/car.go:149-155 | the "already sold" refusal is unreachable |
| ContractProperties.ChangeCarOwnerIgnoresCaller | chaincode/car/car.go:170-184 | the transfer's outcome does not depend on the caller's organisation, even when it cannot be read |
| ContractProperties.ChangeCarOwnerMismatch | chaincode/car/car.go:176-178 | a transfer from anyone but the stored owner is refused, whatever the status, and nothing is written |
| ContractProperties.ChangeCarOwnerSucceeds | chaincode/car/car.go:170-184 | the transfer succeeds exactly when the car is stored under a non-empty id and its owner is the one supplied; only the owner changes, and the write goes under the id given |
| ContractProperties.CarExistsIffQueryCar | chaincode/car/car.go:188-195 | CarExists holds exactly when QueryCar finds a car, which is then the lenient read of the stored value |
| ContractProperties.MissingCar | chaincode/car/car.go:256-258 | on a missing key, QueryCar, ChangeCarOwner (through QueryCar), UpdateDealer and SellCar all fail with their "does not exist" message, and none of them writes |
| ContractProperties.ManufactureFailureChangesNothing | chaincode/car/car.go:35-71 | a failed manufacture leaves the world unchanged |
| ContractProperties.UpdateDealerFailureChangesNothing | chaincode/car/car.go:76-114 | a failed dealer update leaves the world unchanged |
| ContractProperties.SellCarFailureChangesNothing | chaincode/car/car.go:119-165 | a failed sale leaves the world unchanged |
| ContractProperties.ChangeCarOwnerFailureChangesNothing | chaincode/car/car.go:170-184 | a failed transfer leaves the world unchanged |
| ContractProperties.StorePreserves | chaincode/car/car.go:71 | writing a car under its own id keeps every stored value a car filed under its own non-empty id, and keeps the logs in step with the state |
| ContractProperties.ManufacturePreserves | chaincode/car/car.go:35-71 | manufacture keeps the world well formed and consistent |
| ContractProperties.UpdateDealerPreserves | chaincode/car/car.go:76-114 | a dealer update keeps the world well formed and consistent |
| ContractProperties.SellCarPreserves | chaincode/car/car.go:119-165 | a sale keeps the world well formed and consistent |
| ContractProperties.ChangeCarOwnerPreserves | chaincode/car/car.go:170-184 | a transfer keeps the world well formed and consistent |
| ContractProperties.WritesUnderGivenId | chaincode/car/car.go:114 | in a well-formed world, the dealer update and the sale write under the id they were given |
| History.Iterate | chaincode/car/car.go:200 | the history iterator yields one entry per log entry, in log order |
| History.WriteEntry | chaincode/car/car.go:220-240 | the buffer writes of one iteration append exactly that entry's rendering |
| History.GetHistoryForCar | chaincode/car/car.go:198-246 | the loop returns the first iterator error, or `[` + the entries joined by `,` + `]` |
| History.JoinAppend | chaincode/car/car.go:217-219 | appending an entry adds a comma before it unless it is the first |
| History.EmptyHistory | chaincode/car/car.go:207-243 | an empty history renders as `[]` |
| History.HistoryFailsIff | chaincode/car/car.go:211-214 | the rendering fails exactly when some iterator step fails, and it then returns the first failure's error |
| History.EntriesInOrder | chaincode/car/car.go:210-241 | without failures there is one rendered entry per step, in iteration order |
| History.EntryShape | chaincode/car/car.go:220-240 | an entry starts with its TxId and then the Value field; the value is `null` for a delete and the stored value otherwise; the entry ends with IsDelete as the quoted string "true" or "false" |
| History.DeleteHidesValue | chaincode/car/car.go:226-228 | a delete entry's rendering does not depend on the value it carries |
| History.LedgerHistory | chaincode/car/car.go:198-246 | the history of a key in the ledger renders as the array of all its log entries, in the order the iterator yields them |
| History.PutAppendsToHistory | chaincode/car/car.go:210-240 | a committed write adds exactly one object after the existing ones in the key's rendered log (on the stub's iterator, which yields the log in write order) |
| Chaincode.Stub.GetState | chaincode/car/car.go:92 | the stub's read returns the stored value exactly when the key is present |
| Chaincode.Stub.PutState | chaincode/car/car.go:71 | the stub's write refuses the empty key without changing anything; otherwise it replaces the value and appends one log entry |
| Chaincode.Stub.GetHistoryForKey | chaincode/car/car.go:200 | the iterator holds one entry per log entry of the key, in write order (oldest first) |
| Chaincode.RequireOrg | chaincode/car/car.go:38-45 | the caller is accepted exactly when its MSP id was read and equals the required organisation |
| Chaincode.CarExists | chaincode/car/car.go:188-195 | true exactly when the key holds a value |
| Chaincode.QueryCar | chaincode/car/car.go:249-264 | fails with "… does not exist" exactly when nothing is stored; otherwise returns the lenient read of the stored value |
| Chaincode.StoreCar | chaincode/car/car.go:109-114 | marshals and writes the car, and returns the transaction id, or the store's refusal |
| Chaincode.ManufactureCar | chaincode/car/car.go:35-73 | the step-by-step manufacture gives the reply and the world of the specification function |
| Chaincode.UpdateDealer | chaincode/car/car.go:76-116 | the step-by-step dealer update gives the reply and the world of the specification function |
| Chaincode.SellCar | chaincode/car/car.go:119-167 | the step-by-step sale gives the reply and the world of the specification function |
| Chaincode.ChangeCarOwner | chaincode/car/car.go:170-185 | the step-by-step transfer gives the reply and the world of the specification function |
| Chaincode.GetHistoryForCar | chaincode/car/car.go:198-246 | on the stub, the history is the rendered array of every write the car received |
| Scenarios.Lifecycle | chaincode/car/car.go:35-184 | from an empty ledger, manufacture, dealer assignment, sale and transfer all succeed; the car ends with the dealer, the last owner and status SOLD, and its history holds the four writes in order |
| Scenarios.SellBeforeDealer | chaincode/car/car.go:149-151 | a freshly manufactured car without status READY_FOR_SALE cannot be sold |
| Scenarios.NoResale | chaincode/car/car.go:149-158 | once a car is sold, a second sale is refused |
| Scenarios.LifecycleOnStub | chaincode/car/car.go:35-246 | the same lifecycle on a fresh stub, then GetHistoryForCar, returns the array of the four writes |

## Left out

- `main` and `chaincode.Start` (`car.go:266-278`): host runtime start-up.
- Chaincode.Stub.GetHistoryForKey: the stub yields the key's log in write order, oldest first, as the car lifecycle's history is meant to read. The order is the peer's, not the chaincode's (`car.go:200` only iterates). Fabric 2.x peers return a key's history newest first, which reverses the array `GetHistoryForCar` builds. `History.LedgerHistory`, `History.PutAppendsToHistory` and `Scenarios.LifecycleOnStub` state the order for this stub only. The rendering loop itself follows iteration order whatever it is (`History.GetHistoryForCar`, `History.EntriesInOrder`).
- `api/app/invoke.js` and `api/app/query.js` are not part of this model. They are gateway and network client code.
- Store read failures (`GetState` returning an error) and any write failure other than the empty key are not modelled; the model's store does not fail otherwise.
- The peer's other key checks (for example, invalid UTF-8 keys) are not modelled.
- Endorsement, MVCC read-write conflicts and concurrency between transactions are not modelled. Each transaction runs alone.
- Iterator `Close` (`defer`) is resource handling, with no effect on the result.
- `time.Unix(...).String()` is the parameter `formatTime`, not a formatting model.
- `json.Unmarshal` is modelled for the payloads a `Car` uses: top-level `null`, or an object whose member values are strings or `null` (case-insensitive key match, last duplicate wins, unknown keys ignored). Other value types (numbers, booleans, nested values) are not modelled; the model treats such a payload as an unmarshal error.
- CarCodec.DecodeLenient: for a payload with a non-string member value, Go fills the other fields and skips or rejects that member, but the model returns the zero car.
- Byte slices are modelled as strings of characters. UTF-8 validation and the replacement of invalid UTF-8 are not modelled.
- Contract.ManufactureCar: the undecodable-payload message omits the library's error text that `car.go:55` appends, since that text comes from `encoding/json`.
- Contract.UpdateDealer: the marshal-failure branch (`car.go:109-112`) is absent, because marshalling a `Car` cannot fail. The same holds for `car.go:58-61` and `car.go:160-163`.
- Contract.CheckCaller: the identity error is carried as its message text. That text is the Fabric client identity library's.
- History.GetHistoryForCar: an iterator error is returned verbatim. The source passes it through `fmt.Errorf` as a format string, which would rewrite a message containing `%`.
- When a transaction fails, the source also returns a placeholder string ("error", "nil" or ""). The chaincode API discards it, so the model's reply is the error alone.
