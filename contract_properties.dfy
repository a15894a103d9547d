/** What the car chaincode guarantees, stated over the transaction functions:
    who may do what, when a transaction fails, that a failed transaction
    changes nothing, and what a successful one stores. */
module ContractProperties {
  import opened Results
  import opened CarCodec
  import opened Ledger
  import opened Contract

  /** A world whose every stored value is a marshalled car filed under its
      own id. Every transaction keeps this (see the Preserves lemmas). */
  ghost predicate WellFormed(w: World) {
    forall k | k in w.state :: k != "" && Decode(w.state[k]).Some? && Decode(w.state[k]).value.carId == k
  }

  /** What a successful Store leaves behind. */
  lemma StoreOk(w: World, tx: Tx, key: string, car: Car)
    requires key != ""
    ensures Store(w, tx, key, car) == Effect(Ok(tx.txId), Put(w, tx, key, Encode(car)))
    ensures QueryCar(Store(w, tx, key, car).after, key) == Ok(car)
  {
    DecodeLenientEncode(car);
  }

  // ---- ManufactureCar ----

  /** Only the manufacturer may manufacture, whatever the payload, and a
      refused call changes nothing. */
  lemma ManufactureOnlyByManufacturer(w: World, tx: Tx, carData: string)
    requires tx.mspId != Ok(ManufacturerMsp)
    ensures ManufactureCar(w, tx, carData).result.Err?
    ensures ManufactureCar(w, tx, carData).result.error.kind in {IdentityError, Unauthorized}
    ensures tx.mspId.Err? ==> ManufactureCar(w, tx, carData).result.error == Error(IdentityError, IdentityFailurePrefix + tx.mspId.error)
    ensures tx.mspId.Ok? ==> ManufactureCar(w, tx, carData).result.error == Error(Unauthorized, ManufactureRefusal)
    ensures ManufactureCar(w, tx, carData).after == w
  {
  }

  /** An empty payload is refused without a write. */
  lemma ManufactureEmptyPayload(w: World, tx: Tx)
    requires tx.mspId == Ok(ManufacturerMsp)
    ensures ManufactureCar(w, tx, "") == Fail(w, InvalidInput, "please pass the correct Car data")
  {
  }

  /** A payload whose id is taken is refused and the entry already stored
      there stays as it was. */
  lemma ManufactureDuplicate(w: World, tx: Tx, carData: string, car: Car)
    requires tx.mspId == Ok(ManufacturerMsp) && |carData| > 0
    requires Decode(carData) == Some(car) && CarExists(w, car.carId)
    ensures ManufactureCar(w, tx, carData).result == Err(Error(AlreadyExists, "Car with CarId " + car.carId + " already exists"))
    ensures ManufactureCar(w, tx, carData).after == w
  {
  }

  /** Manufacture succeeds exactly when the manufacturer sends a payload that
      decodes to a car with a fresh, non-empty id; it then stores that car,
      re-marshalled, under its id, with its status exactly as supplied. */
  lemma ManufactureSucceeds(w: World, tx: Tx, carData: string)
    ensures ManufactureCar(w, tx, carData).result.Ok?
        <==> tx.mspId == Ok(ManufacturerMsp) && |carData| > 0 && Decode(carData).Some?
             && !CarExists(w, Decode(carData).value.carId) && Decode(carData).value.carId != ""
    ensures ManufactureCar(w, tx, carData).result.Ok? ==>
              var car := Decode(carData).value;
              && ManufactureCar(w, tx, carData) == Effect(Ok(tx.txId), Put(w, tx, car.carId, Encode(car)))
              && QueryCar(ManufactureCar(w, tx, carData).after, car.carId) == Ok(car)
              && QueryCar(ManufactureCar(w, tx, carData).after, car.carId).value.status == car.status
  {
    if ManufactureCar(w, tx, carData).result.Ok? {
      var car := Decode(carData).value;
      StoreOk(w, tx, car.carId, car);
    }
  }

  /** A non-empty payload that does not unmarshal is refused as undecodable
      and nothing is written. */
  lemma ManufactureUndecodable(w: World, tx: Tx, carData: string)
    requires tx.mspId == Ok(ManufacturerMsp) && |carData| > 0 && Decode(carData).None?
    ensures ManufactureCar(w, tx, carData) == Fail(w, InvalidInput, UndecodableCarData)
  {
  }

  /** A payload with the escape \' in a string is not JSON: it is refused
      as undecodable and nothing is written. */
  lemma ManufactureRejectsQuoteEscape(w: World, tx: Tx)
    requires tx.mspId == Ok(ManufacturerMsp)
    ensures ManufactureCar(w, tx, "{\"carId\":\"\\'\"}") == Fail(w, InvalidInput, UndecodableCarData)
  {
    QuoteEscapeUndecodable();
    ManufactureUndecodable(w, tx, "{\"carId\":\"\\'\"}");
  }

  /** What is stored is the re-marshalled car, not the payload: a payload
      with leading whitespace is stored without it. */
  lemma ManufactureStoresReencoded(w: World, tx: Tx, car: Car)
    requires tx.mspId == Ok(ManufacturerMsp) && car.carId != "" && !CarExists(w, car.carId)
    ensures GetState(ManufactureCar(w, tx, " " + Encode(car)).after, car.carId) == Some(Encode(car))
    ensures GetState(ManufactureCar(w, tx, " " + Encode(car)).after, car.carId) != Some(" " + Encode(car))
  {
    DecodeEncode(car);
    assert (" " + Encode(car))[1..] == Encode(car);
    assert Decode(" " + Encode(car)) == Decode(Encode(car));
    ManufactureSucceeds(w, tx, " " + Encode(car));
  }

  // ---- UpdateDealer ----

  /** UpdateDealer succeeds exactly when the manufacturer names a stored car
      (whose stored id, read leniently, is not empty); it then sets the dealer
      and the status READY_FOR_SALE, whatever the status was, keeps every
      other field, and writes under the id it read from the stored car. */
  lemma UpdateDealerSucceeds(w: World, tx: Tx, carId: string, dealer: string)
    ensures UpdateDealer(w, tx, carId, dealer).result.Ok?
        <==> tx.mspId == Ok(ManufacturerMsp) && |carId| > 0 && CarExists(w, carId)
             && DecodeLenient(w.state[carId]).carId != ""
    ensures UpdateDealer(w, tx, carId, dealer).result.Ok? ==>
              var prior := DecodeLenient(w.state[carId]);
              var car := prior.(dealer := dealer, status := ReadyForSale);
              && UpdateDealer(w, tx, carId, dealer) == Effect(Ok(tx.txId), Put(w, tx, prior.carId, Encode(car)))
              && QueryCar(UpdateDealer(w, tx, carId, dealer).after, prior.carId) == Ok(car)
  {
    if UpdateDealer(w, tx, carId, dealer).result.Ok? {
      var car := DecodeLenient(w.state[carId]).(dealer := dealer, status := ReadyForSale);
      StoreOk(w, tx, car.carId, car);
    }
  }

  /** Assigning a dealer to a sold car puts it back on sale: the status can
      move from SOLD back to READY_FOR_SALE. */
  lemma UpdateDealerReopensSoldCar(w: World, tx: Tx, carId: string, dealer: string)
    requires WellFormed(w) && CarExists(w, carId) && QueryCar(w, carId).value.status == Sold
    requires tx.mspId == Ok(ManufacturerMsp)
    ensures UpdateDealer(w, tx, carId, dealer).result.Ok?
    ensures QueryCar(UpdateDealer(w, tx, carId, dealer).after, carId).value.status == ReadyForSale
  {
    UpdateDealerSucceeds(w, tx, carId, dealer);
  }

  /** Only the manufacturer may assign a dealer: any other caller, or one
      whose identity cannot be read, is refused without a write. */
  lemma UpdateDealerOnlyByManufacturer(w: World, tx: Tx, carId: string, dealer: string)
    requires tx.mspId != Ok(ManufacturerMsp)
    ensures UpdateDealer(w, tx, carId, dealer).result.Err?
    ensures UpdateDealer(w, tx, carId, dealer).result.error.kind in {IdentityError, Unauthorized}
    ensures tx.mspId.Err? ==> UpdateDealer(w, tx, carId, dealer).result.error == Error(IdentityError, IdentityFailurePrefix + tx.mspId.error)
    ensures tx.mspId.Ok? ==> UpdateDealer(w, tx, carId, dealer).result.error == Error(Unauthorized, UpdateDealerRefusal)
    ensures UpdateDealer(w, tx, carId, dealer).after == w
  {
  }

  /** The manufacturer's update with an empty id is refused without a write. */
  lemma UpdateDealerMissingId(w: World, tx: Tx, dealer: string)
    requires tx.mspId == Ok(ManufacturerMsp)
    ensures UpdateDealer(w, tx, "", dealer) == Fail(w, InvalidInput, MissingCarId)
  {
  }

  /** A stored value that does not decode is read as the zero car, whose id
      is empty, so the write goes to the empty key and the store refuses it. */
  lemma UpdateDealerOnUndecodableValue(w: World, tx: Tx, carId: string, dealer: string)
    requires tx.mspId == Ok(ManufacturerMsp) && |carId| > 0
    requires CarExists(w, carId) && Decode(w.state[carId]).None?
    ensures UpdateDealer(w, tx, carId, dealer) == Fail(w, StoreError, EmptyKeyMessage)
  {
  }

  // ---- SellCar ----

  /** SellCar succeeds exactly when the dealer names a stored car that is up
      for sale (and whose stored id is not empty); it then records the buyer
      and marks the car SOLD, keeping every other field. */
  lemma SellCarSucceeds(w: World, tx: Tx, carId: string, owner: string)
    ensures SellCar(w, tx, carId, owner).result.Ok?
        <==> tx.mspId == Ok(DealerMsp) && |carId| > 0 && CarExists(w, carId)
             && DecodeLenient(w.state[carId]).status == ReadyForSale
             && DecodeLenient(w.state[carId]).carId != ""
    ensures SellCar(w, tx, carId, owner).result.Ok? ==>
              var prior := DecodeLenient(w.state[carId]);
              var car := prior.(owner := owner, status := Sold);
              && SellCar(w, tx, carId, owner) == Effect(Ok(tx.txId), Put(w, tx, prior.carId, Encode(car)))
              && QueryCar(SellCar(w, tx, carId, owner).after, prior.carId) == Ok(car)
  {
    if SellCar(w, tx, carId, owner).result.Ok? {
      var car := DecodeLenient(w.state[carId]).(owner := owner, status := Sold);
      StoreOk(w, tx, car.carId, car);
    }
  }

  /** Only the dealer may sell: any other caller, or one whose identity
      cannot be read, is refused without a write. */
  lemma SellCarOnlyByDealer(w: World, tx: Tx, carId: string, owner: string)
    requires tx.mspId != Ok(DealerMsp)
    ensures SellCar(w, tx, carId, owner).result.Err?
    ensures SellCar(w, tx, carId, owner).result.error.kind in {IdentityError, Unauthorized}
    ensures tx.mspId.Err? ==> SellCar(w, tx, carId, owner).result.error == Error(IdentityError, IdentityFailurePrefix + tx.mspId.error)
    ensures tx.mspId.Ok? ==> SellCar(w, tx, carId, owner).result.error == Error(Unauthorized, SellRefusal)
    ensures SellCar(w, tx, carId, owner).after == w
  {
  }

  /** The dealer's sale with an empty id is refused without a write. */
  lemma SellCarMissingId(w: World, tx: Tx, owner: string)
    requires tx.mspId == Ok(DealerMsp)
    ensures SellCar(w, tx, "", owner) == Fail(w, InvalidInput, MissingCarId)
  {
  }

  /** A car that is not up for sale is refused as not on sale, without a
      write; this includes a car that is already SOLD. */
  lemma SellCarNotOnSale(w: World, tx: Tx, carId: string, owner: string)
    requires tx.mspId == Ok(DealerMsp) && |carId| > 0 && CarExists(w, carId)
    requires DecodeLenient(w.state[carId]).status != ReadyForSale
    ensures SellCar(w, tx, carId, owner) == Fail(w, NotOnSale, "Car is not on sale, please contact dealer")
  {
  }

  /** The "already sold" refusal is never given: a SOLD car is always caught
      by the not-on-sale check first. */
  lemma SellCarNeverReportsAlreadySold(w: World, tx: Tx, carId: string, owner: string)
    ensures SellCar(w, tx, carId, owner).result.Err? ==> SellCar(w, tx, carId, owner).result.error.kind != AlreadySold
  {
  }

  // ---- ChangeCarOwner ----

  /** ChangeCarOwner does not look at the caller's organisation: any caller,
      even one whose identity cannot be read, gets the same outcome. */
  lemma ChangeCarOwnerIgnoresCaller(w: World, tx: Tx, carId: string, currentOwner: string, newOwner: string, caller: Result<string, string>)
    ensures ChangeCarOwner(w, tx.(mspId := caller), carId, currentOwner, newOwner) == ChangeCarOwner(w, tx, carId, currentOwner, newOwner)
  {
  }

  /** A transfer from anyone but the stored owner is refused without a
      write, whatever the car's status. */
  lemma ChangeCarOwnerMismatch(w: World, tx: Tx, carId: string, currentOwner: string, newOwner: string)
    requires CarExists(w, carId) && DecodeLenient(w.state[carId]).owner != currentOwner
    ensures ChangeCarOwner(w, tx, carId, currentOwner, newOwner) == Fail(w, OwnerMismatch, "current owner does not match")
  {
  }

  /** A transfer succeeds exactly when the car exists under a non-empty id
      and the stored owner is the one supplied; only the owner changes, and
      the write goes under the id supplied. */
  lemma ChangeCarOwnerSucceeds(w: World, tx: Tx, carId: string, currentOwner: string, newOwner: string)
    ensures ChangeCarOwner(w, tx, carId, currentOwner, newOwner).result.Ok?
        <==> CarExists(w, carId) && DecodeLenient(w.state[carId]).owner == currentOwner && carId != ""
    ensures ChangeCarOwner(w, tx, carId, currentOwner, newOwner).result.Ok? ==>
              var car := DecodeLenient(w.state[carId]).(owner := newOwner);
              && ChangeCarOwner(w, tx, carId, currentOwner, newOwner) == Effect(Ok(tx.txId), Put(w, tx, carId, Encode(car)))
              && QueryCar(ChangeCarOwner(w, tx, carId, currentOwner, newOwner).after, carId) == Ok(car)
  {
    if ChangeCarOwner(w, tx, carId, currentOwner, newOwner).result.Ok? {
      var car := DecodeLenient(w.state[carId]).(owner := newOwner);
      StoreOk(w, tx, carId, car);
    }
  }

  // ---- reads and missing keys ----

  /** CarExists holds exactly when QueryCar finds a car. */
  lemma CarExistsIffQueryCar(w: World, carId: string)
    ensures CarExists(w, carId) <==> QueryCar(w, carId).Ok?
    ensures CarExists(w, carId) ==> QueryCar(w, carId).value == DecodeLenient(w.state[carId])
  {
  }

  /** Every operation that reads a missing key reports that it does not
      exist, and none of them writes. */
  lemma MissingCar(w: World, tx: Tx, carId: string, x: string, y: string)
    requires !CarExists(w, carId)
    ensures QueryCar(w, carId) == Err(Error(NotFound, carId + " does not exist"))
    ensures ChangeCarOwner(w, tx, carId, x, y) == Fail(w, NotFound, "error while querying car: " + (carId + " does not exist"))
    ensures tx.mspId == Ok(ManufacturerMsp) && |carId| > 0 ==> UpdateDealer(w, tx, carId, x) == Fail(w, NotFound, NoCarMessage(carId))
    ensures tx.mspId == Ok(DealerMsp) && |carId| > 0 ==> SellCar(w, tx, carId, x) == Fail(w, NotFound, NoCarMessage(carId))
  {
  }

  // ---- what every transaction keeps ----

  /** A failed transaction leaves the world exactly as it was. */
  lemma ManufactureFailureChangesNothing(w: World, tx: Tx, carData: string)
    ensures ManufactureCar(w, tx, carData).result.Err? ==> ManufactureCar(w, tx, carData).after == w
  {
  }

  lemma UpdateDealerFailureChangesNothing(w: World, tx: Tx, carId: string, dealer: string)
    ensures UpdateDealer(w, tx, carId, dealer).result.Err? ==> UpdateDealer(w, tx, carId, dealer).after == w
  {
  }

  lemma SellCarFailureChangesNothing(w: World, tx: Tx, carId: string, owner: string)
    ensures SellCar(w, tx, carId, owner).result.Err? ==> SellCar(w, tx, carId, owner).after == w
  {
  }

  lemma ChangeCarOwnerFailureChangesNothing(w: World, tx: Tx, carId: string, currentOwner: string, newOwner: string)
    ensures ChangeCarOwner(w, tx, carId, currentOwner, newOwner).result.Err? ==> ChangeCarOwner(w, tx, carId, currentOwner, newOwner).after == w
  {
  }

  /** Writing a car under its own id keeps the world well formed and its
      logs in step with its state. */
  lemma StorePreserves(w: World, tx: Tx, key: string, car: Car)
    requires WellFormed(w) && Consistent(w) && car.carId == key
    ensures WellFormed(Store(w, tx, key, car).after) && Consistent(Store(w, tx, key, car).after)
  {
    if key != "" {
      DecodeEncode(car);
      PutConsistent(w, tx, key, Encode(car));
    }
  }

  /** Each transaction keeps the world well formed (each value a car filed
      under its own non-empty id) and its logs in step with its state. */
  lemma ManufacturePreserves(w: World, tx: Tx, carData: string)
    requires WellFormed(w) && Consistent(w)
    ensures WellFormed(ManufactureCar(w, tx, carData).after) && Consistent(ManufactureCar(w, tx, carData).after)
  {
    if Decode(carData).Some? {
      var car := Decode(carData).value;
      StorePreserves(w, tx, car.carId, car);
    }
  }

  lemma UpdateDealerPreserves(w: World, tx: Tx, carId: string, dealer: string)
    requires WellFormed(w) && Consistent(w)
    ensures WellFormed(UpdateDealer(w, tx, carId, dealer).after) && Consistent(UpdateDealer(w, tx, carId, dealer).after)
  {
    if UpdateDealer(w, tx, carId, dealer).result.Ok? {
      WritesUnderGivenId(w, tx, carId, dealer);
      var car := DecodeLenient(w.state[carId]).(dealer := dealer, status := ReadyForSale);
      assert UpdateDealer(w, tx, carId, dealer) == Store(w, tx, carId, car);
      StorePreserves(w, tx, carId, car);
    } else {
      UpdateDealerFailureChangesNothing(w, tx, carId, dealer);
    }
  }

  lemma SellCarPreserves(w: World, tx: Tx, carId: string, owner: string)
    requires WellFormed(w) && Consistent(w)
    ensures WellFormed(SellCar(w, tx, carId, owner).after) && Consistent(SellCar(w, tx, carId, owner).after)
  {
    if SellCar(w, tx, carId, owner).result.Ok? {
      WritesUnderGivenId(w, tx, carId, owner);
      var car := DecodeLenient(w.state[carId]).(owner := owner, status := Sold);
      assert SellCar(w, tx, carId, owner) == Store(w, tx, carId, car);
      StorePreserves(w, tx, carId, car);
    } else {
      SellCarFailureChangesNothing(w, tx, carId, owner);
    }
  }

  lemma ChangeCarOwnerPreserves(w: World, tx: Tx, carId: string, currentOwner: string, newOwner: string)
    requires WellFormed(w) && Consistent(w)
    ensures WellFormed(ChangeCarOwner(w, tx, carId, currentOwner, newOwner).after)
    ensures Consistent(ChangeCarOwner(w, tx, carId, currentOwner, newOwner).after)
  {
    if ChangeCarOwner(w, tx, carId, currentOwner, newOwner).result.Ok? {
      var prior := DecodeLenient(w.state[carId]);
      assert prior.carId == carId;
      var car := prior.(owner := newOwner);
      assert ChangeCarOwner(w, tx, carId, currentOwner, newOwner) == Store(w, tx, carId, car);
      StorePreserves(w, tx, carId, car);
    } else {
      ChangeCarOwnerFailureChangesNothing(w, tx, carId, currentOwner, newOwner);
    }
  }

  /** In a well-formed world the write of UpdateDealer and SellCar goes
      under the id they were given, as ChangeCarOwner's always does. */
  lemma WritesUnderGivenId(w: World, tx: Tx, carId: string, x: string)
    requires WellFormed(w) && CarExists(w, carId)
    ensures DecodeLenient(w.state[carId]).carId == carId
    ensures UpdateDealer(w, tx, carId, x).result.Ok? ==>
              GetState(UpdateDealer(w, tx, carId, x).after, carId) == Some(Encode(DecodeLenient(w.state[carId]).(dealer := x, status := ReadyForSale)))
    ensures SellCar(w, tx, carId, x).result.Ok? ==>
              GetState(SellCar(w, tx, carId, x).after, carId) == Some(Encode(DecodeLenient(w.state[carId]).(owner := x, status := Sold)))
  {
    UpdateDealerSucceeds(w, tx, carId, x);
    SellCarSucceeds(w, tx, carId, x);
  }
}
