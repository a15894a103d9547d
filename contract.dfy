/** The car lifecycle chaincode, one function per transaction: each takes the
    world before the transaction and returns what the caller gets back (the
    transaction id or an error) together with the world after it. */
module Contract {
  import opened Results
  import opened CarCodec
  import opened Ledger

  /** The manufacturer organisation, the only one that may create cars and
      assign dealers. */
  const ManufacturerMsp := "Org1MSP"
  /** The dealer organisation, the only one that may sell. */
  const DealerMsp := "Org2MSP"

  const ReadyForSale := "READY_FOR_SALE"
  const Sold := "SOLD"

  // The messages the transactions fail with.
  const IdentityFailurePrefix := "failed to get MSPID: "
  const ManufactureRefusal := "client is not authorized to manufacture new car"
  const UpdateDealerRefusal := "client is not authorized to update dealer information"
  const SellRefusal := "client is not authorized to sell car"
  const MissingCarData := "please pass the correct Car data"
  const UndecodableCarData := "failed while unmarshling car data"
  const MissingCarId := "please pass the correct Car ID"
  const NotOnSaleMessage := "Car is not on sale, please contact dealer"
  const AlreadySoldMessage := "car already sold. Please try purchasing other car"
  const QueryFailurePrefix := "error while querying car: "
  const OwnerMismatchMessage := "current owner does not match"

  datatype ErrorKind =
    | IdentityError   // the caller's MSP id could not be read
    | Unauthorized    // the caller's organisation may not do this
    | InvalidInput    // empty argument or undecodable payload
    | NotFound        // nothing stored under the id
    | AlreadyExists   // manufacturing an id that is taken
    | NotOnSale       // selling a car whose status is not READY_FOR_SALE
    | AlreadySold     // selling a car whose status is SOLD
    | OwnerMismatch   // the supplied current owner is not the stored one
    | StoreError      // the store refused the write

  datatype Error = Error(kind: ErrorKind, message: string)

  /** The reply to a transaction and the world it leaves behind. */
  datatype Effect = Effect(result: Result<string, Error>, after: World)

  function Fail(w: World, kind: ErrorKind, message: string): Effect {
    Effect(Err(Error(kind, message)), w)
  }

  /** The caller check shared by the guarded transactions: None when the
      caller belongs to org, else the error to return. */
  function CheckCaller(tx: Tx, org: string, refusal: string): Option<Error> {
    match tx.mspId
    case Err(e) => Some(Error(IdentityError, IdentityFailurePrefix + e))
    case Ok(id) => if id != org then Some(Error(Unauthorized, refusal)) else None
  }

  /** Marshals car, writes it under key and returns the transaction id; a
      write the store refuses is returned as its error. */
  function Store(w: World, tx: Tx, key: string, car: Car): Effect {
    match PutState(w, tx, key, Encode(car))
    case Ok(w') => Effect(Ok(tx.txId), w')
    case Err(m) => Fail(w, StoreError, m)
  }

  function NoCarMessage(carId: string): string {
    "the car " + carId + " does not exist"
  }

  function AlreadyExistsMessage(carId: string): string {
    "Car with CarId " + carId + " already exists"
  }

  function NotStoredMessage(carId: string): string {
    carId + " does not exist"
  }

  /** CarExists: whether anything is stored under carId. */
  function CarExists(w: World, carId: string): bool {
    GetState(w, carId).Some?
  }

  /** QueryCar: the stored car, read leniently. */
  function QueryCar(w: World, carId: string): Result<Car, Error> {
    match GetState(w, carId)
    case None => Err(Error(NotFound, NotStoredMessage(carId)))
    case Some(b) => Ok(DecodeLenient(b))
  }

  /** ManufactureCar: stores the car the payload describes under its own id. */
  function ManufactureCar(w: World, tx: Tx, carData: string): Effect {
    match CheckCaller(tx, ManufacturerMsp, ManufactureRefusal)
    case Some(e) => Effect(Err(e), w)
    case None =>
      if |carData| == 0 then Fail(w, InvalidInput, MissingCarData)
      else match Decode(carData)
        case None => Fail(w, InvalidInput, UndecodableCarData)
        case Some(car) =>
          if CarExists(w, car.carId) then Fail(w, AlreadyExists, AlreadyExistsMessage(car.carId))
          else Store(w, tx, car.carId, car)
  }

  /** UpdateDealer: assigns a dealer and puts the car up for sale. */
  function UpdateDealer(w: World, tx: Tx, carId: string, dealer: string): Effect {
    match CheckCaller(tx, ManufacturerMsp, UpdateDealerRefusal)
    case Some(e) => Effect(Err(e), w)
    case None =>
      if |carId| == 0 then Fail(w, InvalidInput, MissingCarId)
      else match GetState(w, carId)
        case None => Fail(w, NotFound, NoCarMessage(carId))
        case Some(b) =>
          var car := DecodeLenient(b).(dealer := dealer, status := ReadyForSale);
          Store(w, tx, car.carId, car)
  }

  /** SellCar: records the buyer of a car that is up for sale. */
  function SellCar(w: World, tx: Tx, carId: string, owner: string): Effect {
    match CheckCaller(tx, DealerMsp, SellRefusal)
    case Some(e) => Effect(Err(e), w)
    case None =>
      if |carId| == 0 then Fail(w, InvalidInput, MissingCarId)
      else match GetState(w, carId)
        case None => Fail(w, NotFound, NoCarMessage(carId))
        case Some(b) =>
          var car := DecodeLenient(b);
          if car.status != ReadyForSale then Fail(w, NotOnSale, NotOnSaleMessage)
          else if car.status == Sold then Fail(w, AlreadySold, AlreadySoldMessage)
          else Store(w, tx, car.carId, car.(owner := owner, status := Sold))
  }

  /** ChangeCarOwner: hands a car on from its current owner; the caller's
      organisation is not consulted. */
  function ChangeCarOwner(w: World, tx: Tx, carId: string, currentOwner: string, newOwner: string): Effect {
    match QueryCar(w, carId)
    case Err(e) => Fail(w, e.kind, QueryFailurePrefix + e.message)
    case Ok(car) =>
      if car.owner != currentOwner then Fail(w, OwnerMismatch, OwnerMismatchMessage)
      else Store(w, tx, carId, car.(owner := newOwner))
  }
}
