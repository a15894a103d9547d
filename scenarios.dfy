/** The car's lifecycle from manufacture to resale, run through the
    transaction functions from an empty ledger. */
module Scenarios {
  import opened Results
  import opened CarCodec
  import opened Ledger
  import opened Contract
  import opened ContractProperties
  import Chaincode
  import History

  // One successful step each, on a car stored as its own marshalled form.

  lemma ManufactureStep(w: World, t: Tx, c: Car)
    requires c.carId != "" && !CarExists(w, c.carId) && t.mspId == Ok(ManufacturerMsp)
    ensures ManufactureCar(w, t, Encode(c)) == Effect(Ok(t.txId), Put(w, t, c.carId, Encode(c)))
  {
    DecodeEncode(c);
    ManufactureSucceeds(w, t, Encode(c));
  }

  lemma UpdateDealerStep(w: World, t: Tx, c: Car, dealer: string)
    requires c.carId != "" && GetState(w, c.carId) == Some(Encode(c)) && t.mspId == Ok(ManufacturerMsp)
    ensures UpdateDealer(w, t, c.carId, dealer)
         == Effect(Ok(t.txId), Put(w, t, c.carId, Encode(c.(dealer := dealer, status := ReadyForSale))))
  {
    DecodeLenientEncode(c);
    UpdateDealerSucceeds(w, t, c.carId, dealer);
  }

  lemma SellCarStep(w: World, t: Tx, c: Car, buyer: string)
    requires c.carId != "" && GetState(w, c.carId) == Some(Encode(c)) && t.mspId == Ok(DealerMsp)
    requires c.status == ReadyForSale
    ensures SellCar(w, t, c.carId, buyer) == Effect(Ok(t.txId), Put(w, t, c.carId, Encode(c.(owner := buyer, status := Sold))))
  {
    DecodeLenientEncode(c);
    SellCarSucceeds(w, t, c.carId, buyer);
  }

  lemma ChangeCarOwnerStep(w: World, t: Tx, c: Car, nextOwner: string)
    requires c.carId != "" && GetState(w, c.carId) == Some(Encode(c))
    ensures ChangeCarOwner(w, t, c.carId, c.owner, nextOwner) == Effect(Ok(t.txId), Put(w, t, c.carId, Encode(c.(owner := nextOwner))))
  {
    DecodeLenientEncode(c);
    ChangeCarOwnerSucceeds(w, t, c.carId, c.owner, nextOwner);
  }

  /** The four transactions of the lifecycle, each succeeding and writing
      the updated car under its id. */
  lemma LifecycleReplies(c: Car, dealer: string, buyer: string, nextOwner: string, t1: Tx, t2: Tx, t3: Tx, t4: Tx,
                         e1: Effect, e2: Effect, e3: Effect, e4: Effect)
    requires c.carId != ""
    requires t1.mspId == Ok(ManufacturerMsp) && t2.mspId == Ok(ManufacturerMsp) && t3.mspId == Ok(DealerMsp)
    requires e1 == ManufactureCar(EmptyWorld, t1, Encode(c))
    requires e2 == UpdateDealer(e1.after, t2, c.carId, dealer)
    requires e3 == SellCar(e2.after, t3, c.carId, buyer)
    requires e4 == ChangeCarOwner(e3.after, t4, c.carId, buyer, nextOwner)
    ensures e1 == Effect(Ok(t1.txId), Put(EmptyWorld, t1, c.carId, Encode(c)))
    ensures e2 == Effect(Ok(t2.txId), Put(e1.after, t2, c.carId, Encode(c.(dealer := dealer, status := ReadyForSale))))
    ensures e3 == Effect(Ok(t3.txId), Put(e2.after, t3, c.carId, Encode(c.(dealer := dealer, owner := buyer, status := Sold))))
    ensures e4 == Effect(Ok(t4.txId), Put(e3.after, t4, c.carId, Encode(c.(dealer := dealer, owner := nextOwner, status := Sold))))
  {
    var c2 := c.(dealer := dealer, status := ReadyForSale);
    var c3 := c2.(owner := buyer, status := Sold);
    ManufactureStep(EmptyWorld, t1, c);
    UpdateDealerStep(e1.after, t2, c, dealer);
    SellCarStep(e2.after, t3, c2, buyer);
    ChangeCarOwnerStep(e3.after, t4, c3, nextOwner);
    assert c3.(owner := nextOwner) == c.(dealer := dealer, owner := nextOwner, status := Sold);
  }

  /** Four accepted writes to one key, from a key with no history, leave
      exactly those four entries in its log, in order. */
  lemma FourWrites(w0: World, w1: World, w2: World, w3: World, w4: World, key: string,
                   t1: Tx, t2: Tx, t3: Tx, t4: Tx, v1: string, v2: string, v3: string, v4: string)
    requires HistoryOf(w0, key) == []
    requires w1 == Put(w0, t1, key, v1) && w2 == Put(w1, t2, key, v2)
    requires w3 == Put(w2, t3, key, v3) && w4 == Put(w3, t4, key, v4)
    ensures HistoryOf(w4, key) == [Written(t1, v1), Written(t2, v2), Written(t3, v3), Written(t4, v4)]
  {
    var m1, m2, m3, m4 := Written(t1, v1), Written(t2, v2), Written(t3, v3), Written(t4, v4);
    assert HistoryOf(w2, key) == [m1, m2];
    assert HistoryOf(w3, key) == [m1, m2, m3];
  }

  /** A car just written as its marshalled form reads back as itself. */
  lemma QueryStored(w: World, t: Tx, c: Car)
    ensures QueryCar(Put(w, t, c.carId, Encode(c)), c.carId) == Ok(c)
  {
    DecodeLenientEncode(c);
  }

  /** Manufacture, dealer assignment, sale and transfer: each succeeds with
      its transaction id, the car ends with the dealer, the last owner and the
      status SOLD, and its history holds the four writes in order. */
  lemma Lifecycle(c: Car, dealer: string, buyer: string, nextOwner: string, t1: Tx, t2: Tx, t3: Tx, t4: Tx,
                  e1: Effect, e2: Effect, e3: Effect, e4: Effect)
    requires c.carId != ""
    requires t1.mspId == Ok(ManufacturerMsp) && t2.mspId == Ok(ManufacturerMsp) && t3.mspId == Ok(DealerMsp)
    requires e1 == ManufactureCar(EmptyWorld, t1, Encode(c))
    requires e2 == UpdateDealer(e1.after, t2, c.carId, dealer)
    requires e3 == SellCar(e2.after, t3, c.carId, buyer)
    requires e4 == ChangeCarOwner(e3.after, t4, c.carId, buyer, nextOwner)
    ensures e1.result == Ok(t1.txId) && e2.result == Ok(t2.txId)
    ensures e3.result == Ok(t3.txId) && e4.result == Ok(t4.txId)
    ensures QueryCar(e4.after, c.carId) == Ok(c.(dealer := dealer, owner := nextOwner, status := Sold))
    ensures HistoryOf(e4.after, c.carId)
         == [Written(t1, Encode(c)),
             Written(t2, Encode(c.(dealer := dealer, status := ReadyForSale))),
             Written(t3, Encode(c.(dealer := dealer, owner := buyer, status := Sold))),
             Written(t4, Encode(c.(dealer := dealer, owner := nextOwner, status := Sold)))]
  {
    LifecycleReplies(c, dealer, buyer, nextOwner, t1, t2, t3, t4, e1, e2, e3, e4);
    var c4 := c.(dealer := dealer, owner := nextOwner, status := Sold);
    assert c4.carId == c.carId;
    QueryStored(e3.after, t4, c4);
    FourWrites(EmptyWorld, e1.after, e2.after, e3.after, e4.after, c.carId, t1, t2, t3, t4, Encode(c),
               Encode(c.(dealer := dealer, status := ReadyForSale)),
               Encode(c.(dealer := dealer, owner := buyer, status := Sold)),
               Encode(c4));
  }

  /** A car cannot be sold before a dealer is assigned (unless it was
      manufactured with the status READY_FOR_SALE already set). */
  lemma SellBeforeDealer(c: Car, buyer: string, t1: Tx, t2: Tx)
    requires c.carId != "" && c.status != ReadyForSale
    requires t1.mspId == Ok(ManufacturerMsp) && t2.mspId == Ok(DealerMsp)
    ensures
      var w1 := ManufactureCar(EmptyWorld, t1, Encode(c)).after;
      SellCar(w1, t2, c.carId, buyer) == Fail(w1, NotOnSale, NotOnSaleMessage)
  {
    ManufactureStep(EmptyWorld, t1, c);
    DecodeLenientEncode(c);
  }

  /** A sold car cannot be sold a second time until a dealer is assigned again. */
  lemma NoResale(w: World, t1: Tx, t2: Tx, carId: string, buyer: string, other: string)
    requires WellFormed(w) && t1.mspId == Ok(DealerMsp)
    requires SellCar(w, t1, carId, buyer).result.Ok?
    ensures
      var w1 := SellCar(w, t1, carId, buyer).after;
      SellCar(w1, t2, carId, other).result.Err?
  {
    SellCarSucceeds(w, t1, carId, buyer);
    var prior := DecodeLenient(w.state[carId]);
    var car := prior.(owner := buyer, status := Sold);
    WritesUnderGivenId(w, t1, carId, buyer);
    DecodeLenientEncode(car);
    SellCarSucceeds(SellCar(w, t1, carId, buyer).after, t2, carId, other);
  }

  /** The same lifecycle run on a fresh stub, followed by GetHistoryForCar:
      it answers the array of the four writes in the order the stub's
      iterator yields them (oldest first). */
  method LifecycleOnStub(c: Car, dealer: string, buyer: string, nextOwner: string, t1: Tx, t2: Tx, t3: Tx, t4: Tx,
                         formatTime: (int, int) -> string)
    returns (history: Result<string, string>)
    requires c.carId != ""
    requires t1.mspId == Ok(ManufacturerMsp) && t2.mspId == Ok(ManufacturerMsp) && t3.mspId == Ok(DealerMsp)
    ensures history == Ok(History.HistoryJson(
              [Written(t1, Encode(c)),
               Written(t2, Encode(c.(dealer := dealer, status := ReadyForSale))),
               Written(t3, Encode(c.(dealer := dealer, owner := buyer, status := Sold))),
               Written(t4, Encode(c.(dealer := dealer, owner := nextOwner, status := Sold)))], formatTime))
  {
    var stub := new Chaincode.Stub();
    var r1 := Chaincode.ManufactureCar(stub, t1, Encode(c));
    var w1 := stub.Snapshot();
    var r2 := Chaincode.UpdateDealer(stub, t2, c.carId, dealer);
    var w2 := stub.Snapshot();
    var r3 := Chaincode.SellCar(stub, t3, c.carId, buyer);
    var w3 := stub.Snapshot();
    var r4 := Chaincode.ChangeCarOwner(stub, t4, c.carId, buyer, nextOwner);
    Lifecycle(c, dealer, buyer, nextOwner, t1, t2, t3, t4,
              Effect(r1, w1), Effect(r2, w2), Effect(r3, w3), Effect(r4, stub.Snapshot()));
    history := Chaincode.GetHistoryForCar(stub, c.carId, formatTime);
  }
}
