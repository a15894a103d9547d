/** The transactions as the peer runs them: step by step against a stub whose
    state and change log are updated in place. Each method is proved to give
    the reply and leave the world its counterpart in Contract describes. */
module Chaincode {
  import opened Results
  import opened CarCodec
  import opened Ledger
  import opened Contract
  import History

  /** The chaincode stub: the current value under each key and each key's
      change log. */
  class Stub {
    var state: map<string, string>
    var log: map<string, seq<KeyModification>>

    /** A fresh ledger: no keys, no history. */
    constructor ()
      ensures Snapshot() == EmptyWorld
    {
      state := map[];
      log := map[];
    }

    function Snapshot(): World
      reads this
    {
      World(state, log)
    }

    /** GetState: the value under key, None when nothing is stored. */
    method GetState(key: string) returns (value: Option<string>)
      ensures value.Some? <==> key in state
      ensures value.Some? ==> value.value == state[key]
      ensures value == Ledger.GetState(Snapshot(), key)
    {
      if key in state {
        value := Some(state[key]);
      } else {
        value := None;
      }
    }

    /** PutState: refuses the empty key; otherwise replaces the value and
        appends the write to the key's log. */
    method PutState(tx: Tx, key: string, value: string) returns (err: Option<string>)
      modifies this
      ensures err.Some? <==> key == ""
      ensures err.Some? ==> err.value == EmptyKeyMessage && unchanged(this)
      ensures err.None? ==> Snapshot() == Put(old(Snapshot()), tx, key, value)
    {
      if key == "" {
        return Some(EmptyKeyMessage);
      }
      var prior := if key in log then log[key] else [];
      state := state[key := value];
      log := log[key := prior + [Written(tx, value)]];
      return None;
    }

    /** GetHistoryForKey: the iterator over the key's log, in the order the
        log was written (oldest first). A Fabric 2.x peer yields the same
        entries newest first. */
    method GetHistoryForKey(key: string) returns (steps: seq<History.IterStep>)
      ensures |steps| == |HistoryOf(Snapshot(), key)|
      ensures forall i :: 0 <= i < |steps| ==> steps[i] == History.Entry(HistoryOf(Snapshot(), key)[i])
    {
      steps := History.Iterate(if key in log then log[key] else []);
    }
  }

  /** The caller's organisation, or the error to return. */
  method RequireOrg(tx: Tx, org: string, refusal: string) returns (err: Option<Error>)
    ensures err == CheckCaller(tx, org, refusal)
    ensures err.None? <==> tx.mspId == Ok(org)
  {
    if tx.mspId.Err? {
      return Some(Error(IdentityError, IdentityFailurePrefix + tx.mspId.error));
    }
    if tx.mspId.value != org {
      return Some(Error(Unauthorized, refusal));
    }
    return None;
  }

  /** CarExists: whether anything is stored under carId. */
  method CarExists(stub: Stub, carId: string) returns (found: bool)
    ensures found <==> carId in stub.state
    ensures found == Contract.CarExists(stub.Snapshot(), carId)
  {
    var stored := stub.GetState(carId);
    found := stored.Some?;
  }

  /** QueryCar: the stored car, read leniently; an error when nothing is stored. */
  method QueryCar(stub: Stub, carId: string) returns (r: Result<Car, Error>)
    ensures r.Err? <==> carId !in stub.state
    ensures r.Err? ==> r.error == Error(NotFound, NotStoredMessage(carId))
    ensures r.Ok? ==> r.value == DecodeLenient(stub.state[carId])
  {
    var carAsBytes := stub.GetState(carId);
    if carAsBytes.None? {
      return Err(Error(NotFound, NotStoredMessage(carId)));
    }
    var car := DecodeLenient(carAsBytes.value);
    return Ok(car);
  }

  /** Marshals car and writes it under key; the store's refusal is the reply. */
  method StoreCar(stub: Stub, tx: Tx, key: string, car: Car) returns (r: Result<string, Error>)
    modifies stub
    ensures Effect(r, stub.Snapshot()) == Store(old(stub.Snapshot()), tx, key, car)
  {
    var carAsBytes := Encode(car);
    var err := stub.PutState(tx, key, carAsBytes);
    if err.Some? {
      return Err(Error(StoreError, err.value));
    }
    return Ok(tx.txId);
  }

  /** ManufactureCar, as the peer runs it. */
  method ManufactureCar(stub: Stub, tx: Tx, carData: string) returns (r: Result<string, Error>)
    modifies stub
    ensures Effect(r, stub.Snapshot()) == Contract.ManufactureCar(old(stub.Snapshot()), tx, carData)
  {
    var refused := RequireOrg(tx, ManufacturerMsp, ManufactureRefusal);
    if refused.Some? {
      return Err(refused.value);
    }
    if |carData| == 0 {
      return Err(Error(InvalidInput, MissingCarData));
    }
    var decoded := Decode(carData);
    if decoded.None? {
      return Err(Error(InvalidInput, UndecodableCarData));
    }
    var car := decoded.value;
    var found := CarExists(stub, car.carId);
    if found {
      return Err(Error(AlreadyExists, AlreadyExistsMessage(car.carId)));
    }
    r := StoreCar(stub, tx, car.carId, car);
  }

  /** UpdateDealer, as the peer runs it. */
  method UpdateDealer(stub: Stub, tx: Tx, carId: string, dealer: string) returns (r: Result<string, Error>)
    modifies stub
    ensures Effect(r, stub.Snapshot()) == Contract.UpdateDealer(old(stub.Snapshot()), tx, carId, dealer)
  {
    var refused := RequireOrg(tx, ManufacturerMsp, UpdateDealerRefusal);
    if refused.Some? {
      return Err(refused.value);
    }
    if |carId| == 0 {
      return Err(Error(InvalidInput, MissingCarId));
    }
    var carAsBytes := stub.GetState(carId);
    if carAsBytes.None? {
      return Err(Error(NotFound, NoCarMessage(carId)));
    }
    var car := DecodeLenient(carAsBytes.value);
    car := car.(dealer := dealer);
    car := car.(status := ReadyForSale);
    r := StoreCar(stub, tx, car.carId, car);
  }

  /** SellCar, as the peer runs it. */
  method SellCar(stub: Stub, tx: Tx, carId: string, owner: string) returns (r: Result<string, Error>)
    modifies stub
    ensures Effect(r, stub.Snapshot()) == Contract.SellCar(old(stub.Snapshot()), tx, carId, owner)
  {
    var refused := RequireOrg(tx, DealerMsp, SellRefusal);
    if refused.Some? {
      return Err(refused.value);
    }
    if |carId| == 0 {
      return Err(Error(InvalidInput, MissingCarId));
    }
    var carAsBytes := stub.GetState(carId);
    if carAsBytes.None? {
      return Err(Error(NotFound, NoCarMessage(carId)));
    }
    var car := DecodeLenient(carAsBytes.value);
    if car.status != ReadyForSale {
      return Err(Error(NotOnSale, NotOnSaleMessage));
    }
    if car.status == Sold {
      return Err(Error(AlreadySold, AlreadySoldMessage));
    }
    car := car.(owner := owner);
    car := car.(status := Sold);
    r := StoreCar(stub, tx, car.carId, car);
  }

  /** ChangeCarOwner, as the peer runs it. */
  method ChangeCarOwner(stub: Stub, tx: Tx, carId: string, currentOwner: string, newOwner: string)
    returns (r: Result<string, Error>)
    modifies stub
    ensures Effect(r, stub.Snapshot()) == Contract.ChangeCarOwner(old(stub.Snapshot()), tx, carId, currentOwner, newOwner)
  {
    var queried := QueryCar(stub, carId);
    if queried.Err? {
      return Err(Error(queried.error.kind, QueryFailurePrefix + queried.error.message));
    }
    var car := queried.value;
    if car.owner != currentOwner {
      return Err(Error(OwnerMismatch, OwnerMismatchMessage));
    }
    car := car.(owner := newOwner);
    r := StoreCar(stub, tx, carId, car);
  }

  /** GetHistoryForCar against the stub: the array of every write the car
      received, in the order the stub's iterator yields them (oldest first). */
  method GetHistoryForCar(stub: Stub, carId: string, formatTime: (int, int) -> string) returns (r: Result<string, string>)
    ensures r == Ok(History.HistoryJson(HistoryOf(stub.Snapshot(), carId), formatTime))
  {
    var steps := stub.GetHistoryForKey(carId);
    assert steps == History.Iterate(HistoryOf(stub.Snapshot(), carId));
    History.LedgerHistory(stub.Snapshot(), carId, formatTime);
    r := History.GetHistoryForCar(Ok(steps), formatTime);
  }
}
