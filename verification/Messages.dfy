/**
 Requests and responses and their wire form (JSON-RPC 2.0, sections 4, 4.1 and 5). The JSON
 text itself is not modelled: what counts here is that a number in an `id` comes back as a
 64-bit floating point number.
 */
module Messages {
  import opened Doubles
  import opened Words
  import opened Wrappers

  /** The value of an `ID`; `NoID` is the default value, which marks a notification. */
  datatype ID = NoID | Int64ID(n: int) | StringID(s: string)

  /** An uninterpreted JSON value; `None` is an empty `json.RawMessage`. */
  type Raw = Option<nat>

  datatype WireError = WireError(code: int, message: string, data: Raw)

  /** A Go error: a wire error, one that wraps another under a message of its own, or neither. */
  datatype Err = Wire(e: WireError) | Wrapping(message: string, inner: Err) | Plain(message: string)

  datatype Message =
    | Request(id: ID, method_: string, params: Raw)
    | Response(id: ID, result: Raw, error: Option<Err>)

  /** An `id` in a message: not there or null, a number without fractional part, a string, or another value. */
  datatype WireID = NoValue | Number(n: int) | Text(s: string) | OtherValue

  datatype Combined = Combined(
    version: string, id: WireID, method_: string, params: Raw, result: Raw, error: Option<WireError>)

  datatype DecodeError = WrongVersion | WrongIDType | InvalidRequest

  const WireVersion := "2.0"

  const MaxInt64 := 0x7FFF_FFFF_FFFF_FFFF

  predicate IsInt64(n: int) {
    -MaxInt64 - 1 <= n <= MaxInt64
  }

  predicate ValidID(id: ID) {
    id.Int64ID? ==> IsInt64(id.n)
  }

  // ----- errors -----

  /** `err.Error()` */
  function ErrorText(err: Err): string {
    match err
    case Wire(e) => e.message
    case Wrapping(message, _) => message
    case Plain(message) => message
  }

  /** `errors.As(err, &wrapped)`: the first wire error of the chain. */
  function Wrapped(err: Err): Option<WireError> {
    match err
    case Wire(e) => Some(e)
    case Wrapping(_, inner) => Wrapped(inner)
    case Plain(_) => None
  }

  /** `toWireError` */
  function ToWireError(err: Option<Err>): Option<WireError> {
    match err
    case None => None
    case Some(Wire(e)) => Some(e)
    case Some(e) => Some(WireError(if Wrapped(e).Some? then Wrapped(e).value.code else 0, ErrorText(e), None))
  }

  /** What an error looks like to the other side: the outermost message and the code of the wire error in it. */
  lemma WireErrorSays(err: Err)
    ensures ToWireError(Some(err)).Some?
    ensures
      var w := ToWireError(Some(err)).value;
      && w.message == ErrorText(err)
      && w.code == (if Wrapped(err).Some? then Wrapped(err).value.code else 0)
      && w.data == (if err.Wire? then err.e.data else None)
  {
  }

  /** The error is the wire error, or wraps one that does. */
  predicate InChain(err: Err, w: WireError) {
    err == Wire(w) || (err.Wrapping? && InChain(err.inner, w))
  }

  lemma {:induction false} WrappedIsInChain(err: Err, w: WireError)
    ensures Wrapped(err) == Some(w) <==> InChain(err, w)
  {
    if err.Wrapping? {
      WrappedIsInChain(err.inner, w);
    }
  }

  /** A wire error is sent as it is. */
  lemma WireErrorIsKept(w: WireError)
    ensures ToWireError(None) == None && ToWireError(Some(Wire(w))) == Some(w)
  {
  }

  /** Any other error is sent with its own message, and with the code of the wire error in its chain if there is one. */
  lemma OtherErrorIsConverted(message: string, inner: Err)
    ensures ToWireError(Some(Plain(message))) == Some(WireError(0, message, None))
    ensures
      var sent := ToWireError(Some(Wrapping(message, inner)));
      && sent.Some? && sent.value.message == message && sent.value.data == None
      && (forall w :: InChain(inner, w) ==> sent.value.code == w.code)
      && ((forall w :: !InChain(inner, w)) ==> sent.value.code == 0)
  {
    forall w
      ensures Wrapped(inner) == Some(w) <==> InChain(inner, w)
    {
      WrappedIsInChain(inner, w);
    }
  }

  // ----- encoding and decoding -----

  function IDValue(id: ID): WireID {
    match id
    case NoID => NoValue
    case Int64ID(n) => Number(n)
    case StringID(s) => Text(s)
  }

  /** What `marshal` fills in. */
  function Marshal(msg: Message): Combined {
    match msg
    case Request(id, m, params) => Combined(WireVersion, IDValue(id), m, params, None, None)
    case Response(id, result, error) => Combined(WireVersion, IDValue(id), "", None, result, ToWireError(error))
  }

  /** `float64(n)` as an integer. */
  function Float64(n: int): int {
    var magnitude: int := Rounded(if n >= 0 then n else -n);
    if n >= 0 then magnitude else -magnitude
  }

  /** `int64(float64(n))`; outside the range of `int64` the result depends on the machine. */
  function Int64OfFloat(outOfRange: int -> int, n: int): int {
    if IsInt64(Float64(n)) then Float64(n) else outOfRange(Float64(n))
  }

  function DecodedID(outOfRange: int -> int, id: WireID): Option<ID> {
    match id
    case NoValue => Some(NoID)
    case Number(n) => Some(Int64ID(Int64OfFloat(outOfRange, n)))
    case Text(s) => Some(StringID(s))
    case OtherValue => None
  }

  /** What `DecodeMessage` makes of the wire form. */
  function Decode(outOfRange: int -> int, wire: Combined): Result<Message, DecodeError> {
    if wire.version != WireVersion then Failure(WrongVersion)
    else
      match DecodedID(outOfRange, wire.id)
      case None => Failure(WrongIDType)
      case Some(id) =>
        if wire.method_ != "" then Success(Request(id, wire.method_, wire.params))
        else if id.NoID? then Failure(InvalidRequest)
        else Success(Response(id, wire.result, if wire.error.Some? then Some(Wire(wire.error.value)) else None))
  }

  /** A message sent to the other side. */
  function Sent(outOfRange: int -> int, msg: Message): Result<Message, DecodeError> {
    Decode(outOfRange, Marshal(msg))
  }

  /** The fields on the wire. */
  lemma WireFields(id: ID, m: string, params: Raw, result: Raw, error: Option<Err>)
    ensures
      var value := if id.NoID? then NoValue else if id.Int64ID? then Number(id.n) else Text(id.s);
      && Marshal(Request(id, m, params)) == Combined("2.0", value, m, params, None, None)
      && Marshal(Response(id, result, error)) == Combined("2.0", value, "", None, result, ToWireError(error))
  {
  }

  /** The message that a wire form is read as: with a method it is a request, otherwise a response. */
  lemma ReadFields(outOfRange: int -> int, id: ID, m: string, params: Raw, result: Raw, error: Option<WireError>)
    ensures
      var value := if id.NoID? then NoValue else if id.Int64ID? then Number(id.n) else Text(id.s);
      Decode(outOfRange, Combined("2.0", value, m, params, result, error)) ==
        if m != "" then Success(Request(SeenID(outOfRange, id), m, params))
        else if id.NoID? then Failure(InvalidRequest)
        else Success(Response(SeenID(outOfRange, id), result, if error.Some? then Some(Wire(error.value)) else None))
  {
  }

  /** How reading fails. */
  lemma UnreadableIsReported(outOfRange: int -> int, wire: Combined)
    ensures Decode(outOfRange, wire) == Failure(WrongVersion) <==> wire.version != "2.0"
    ensures Decode(outOfRange, wire) == Failure(WrongIDType) <==> wire.version == "2.0" && wire.id == OtherValue
    ensures Decode(outOfRange, wire) == Failure(InvalidRequest) <==>
            wire.version == "2.0" && wire.id == NoValue && wire.method_ == ""
  {
  }

  /** An id is seen as the nearest double to it, with its sign, when that is in the range of `int64`. */
  lemma SeenIDIs(outOfRange: int -> int, n: int)
    ensures
      var magnitude: int := Rounded(if n < 0 then -n else n);
      var double := if n < 0 then -magnitude else magnitude;
      SeenID(outOfRange, Int64ID(n)) == Int64ID(if IsInt64(double) then double else outOfRange(double))
    ensures forall s :: SeenID(outOfRange, StringID(s)) == StringID(s)
    ensures SeenID(outOfRange, NoID) == NoID
  {
  }

  // ----- ids -----

  /** What `int64` of a double outside its range gives, on this machine, for the ids that reach it. */
  function Overflown(outOfRange: int -> int): int {
    outOfRange(MaxInt64 + 1)
  }

  /** Its conversion stays in the range of `int64`. */
  predicate FloatFits(id: ID) {
    id.Int64ID? ==> IsInt64(Float64(id.n))
  }

  /**
   The id is a string, is not there, or is an integer that a double holds; or it is rounded
   up to 2^63 and happens to be what the machine makes of that.
   */
  ghost predicate Survives(outOfRange: int -> int, id: ID) {
    id.Int64ID? ==>
      if FloatFits(id) then Representable(if id.n >= 0 then id.n else -id.n) else id.n == Overflown(outOfRange)
  }

  /** What the other side sees for an id. */
  function SeenID(outOfRange: int -> int, id: ID): ID {
    match id
    case Int64ID(n) => Int64ID(Int64OfFloat(outOfRange, n))
    case _ => id
  }

  lemma FloatIsSameIff(n: int)
    ensures Float64(n) == n <==> Representable(if n >= 0 then n else -n)
    ensures Float64(Float64(n)) == Float64(n)
  {
    var m: nat := if n >= 0 then n else -n;
    RoundedIsSameIff(m);
    RoundingTwiceIsOnce(m);
  }

  lemma RepresentableLimit(k: nat)
    ensures Representable(Pow2(k)) && Representable(2 * Pow2(k))
  {
    ScaledIsRepresentable(1, k);
    ScaledIsRepresentable(2, k);
  }

  lemma SixtyThreeBits()
    ensures Representable(MaxInt64 + 1)
  {
    SixtyFourBits();
    RepresentableLimit(63);
    assert Pow2(64) == 2 * Pow2(63);
  }

  /** The only double out of range that an id can round to is 2^63. */
  lemma OutOfRangeIsLimit(n: int)
    requires IsInt64(n) && !IsInt64(Float64(n))
    ensures Float64(n) == MaxInt64 + 1
  {
    SixtyThreeBits();
    RoundedIsSameIff(MaxInt64 + 1);
    var m: nat := if n >= 0 then n else -n;
    RoundedIsMonotone(m, MaxInt64 + 1);
  }

  /** An id comes back unchanged exactly when a double holds it, or by accident at the end of the range. */
  lemma IDComesBackIff(outOfRange: int -> int, id: ID)
    requires ValidID(id)
    ensures SeenID(outOfRange, id) == id <==> Survives(outOfRange, id)
  {
    if id.Int64ID? {
      FloatIsSameIff(id.n);
      if !FloatFits(id) {
        OutOfRangeIsLimit(id.n);
      }
    }
  }

  /** Every id up to 2^53 in magnitude does, whatever the machine; 2^53 + 1 comes back as another id. */
  lemma SmallIDsComeBack(outOfRange: int -> int, n: int)
    requires -SignificandLimit <= n <= SignificandLimit
    ensures SeenID(outOfRange, Int64ID(n)) == Int64ID(n)
    ensures SeenID(outOfRange, Int64ID(SignificandLimit + 1)) != Int64ID(SignificandLimit + 1)
  {
    SmallIntegersSurvive(if n >= 0 then n else -n);
    SmallIntegersSurvive(SignificandLimit + 1);
    LimitRoundsNearby();
  }

  lemma LimitRoundsNearby()
    ensures Rounded(SignificandLimit + 1) <= SignificandLimit + 2
  {
    ScaledIsRepresentable(SignificandLimit, 0);
    assert SignificandLimit * Pow2(0) == SignificandLimit;
    RoundedIsNearest(SignificandLimit + 1, SignificandLimit);
  }

  // ----- round trips -----

  /** What the other side sees of a message, if it takes it for a message of the same kind. */
  function Seen(outOfRange: int -> int, msg: Message): Message {
    match msg
    case Request(id, m, params) => Request(SeenID(outOfRange, id), m, params)
    case Response(id, result, error) =>
      Response(SeenID(outOfRange, id), result, if error.Some? then Some(Wire(ToWireError(error).value)) else None)
  }

  /**
   A message arrives as a message of the same kind, with the same method, params or result
   and with the error's wire form, exactly when it is a request with a method or a response
   with an id.
   */
  lemma ArrivesIff(outOfRange: int -> int, msg: Message)
    ensures Sent(outOfRange, msg) == Success(Seen(outOfRange, msg)) <==>
              if msg.Request? then msg.method_ != "" else !msg.id.NoID?
  {
  }

  /** Otherwise a request is taken for an empty response, or nothing is read at all. */
  lemma OtherwiseItIsMisread(outOfRange: int -> int, msg: Message)
    requires if msg.Request? then msg.method_ == "" else msg.id.NoID?
    ensures Sent(outOfRange, msg) ==
      if msg.id.NoID? then Failure(InvalidRequest) else Success(Response(SeenID(outOfRange, msg.id), None, None))
  {
  }

  /** A request arrives unchanged exactly when it has a method and its id survives. */
  lemma RequestComesBackIff(outOfRange: int -> int, msg: Message)
    requires msg.Request? && ValidID(msg.id)
    ensures Sent(outOfRange, msg) == Success(msg) <==> msg.method_ != "" && Survives(outOfRange, msg.id)
  {
    IDComesBackIff(outOfRange, msg.id);
  }

  /** A response arrives unchanged exactly when it has an id, which survives, and its error is a wire error. */
  lemma ResponseComesBackIff(outOfRange: int -> int, msg: Message)
    requires msg.Response? && ValidID(msg.id)
    ensures Sent(outOfRange, msg) == Success(msg) <==>
              && !msg.id.NoID?
              && Survives(outOfRange, msg.id)
              && (msg.error.Some? ==> msg.error.value.Wire?)
  {
    IDComesBackIff(outOfRange, msg.id);
  }

  /** Passing on what the machine made of an id out of range changes it again. */
  predicate OverflowIsUnstable(outOfRange: int -> int) {
    IsInt64(Float64(Overflown(outOfRange))) && Float64(Overflown(outOfRange)) != Overflown(outOfRange)
  }

  /**
   What has arrived once arrives unchanged when it is passed on. The one exception is an id
   that rounds out of range, on a machine that makes of it an integer no double holds.
   */
  lemma SecondPassIsIdentityIff(outOfRange: int -> int, msg: Message)
    requires ValidID(msg.id) && Sent(outOfRange, msg).Success? && IsInt64(Overflown(outOfRange))
    ensures Sent(outOfRange, Sent(outOfRange, msg).value) == Sent(outOfRange, msg)
            <==> FloatFits(msg.id) || !OverflowIsUnstable(outOfRange)
  {
    if msg.id.Int64ID? {
      FloatIsSameIff(msg.id.n);
      if !FloatFits(msg.id) {
        OutOfRangeIsLimit(msg.id.n);
        if !IsInt64(Float64(Overflown(outOfRange))) {
          OutOfRangeIsLimit(Overflown(outOfRange));
        }
      }
    }
  }

  lemma LargestRoundsUp()
    ensures Float64(MaxInt64) == MaxInt64 + 1
  {
    var v := Rounded(MaxInt64);
    SixtyThreeBits();
    RoundedIsNearest(MaxInt64, MaxInt64 + 1);
    RoundedIsRepresentable(MaxInt64);
    assert Pow2(10) == 1024;
    var t := LargeIsMultiple(v, 10);
  }

  /** Neither of the two results in use, the largest and the smallest integer, is such a machine's. */
  lemma OverflowIsStableInPractice(outOfRange: int -> int)
    requires Overflown(outOfRange) == MaxInt64 || Overflown(outOfRange) == -MaxInt64 - 1
    ensures !OverflowIsUnstable(outOfRange)
  {
    SixtyThreeBits();
    if Overflown(outOfRange) == MaxInt64 {
      LargestRoundsUp();
    } else {
      FloatIsSameIff(-MaxInt64 - 1);
    }
  }

  /** Only version 2.0 is read, and only string, number or null ids. */
  lemma DecodedIsWellFormed(outOfRange: int -> int, wire: Combined)
    ensures Decode(outOfRange, wire).Success? <==>
              && wire.version == "2.0"
              && !wire.id.OtherValue?
              && (wire.method_ == "" ==> !wire.id.NoValue?)
  {
  }

  // ----- the code -----

  /** `wireCombined`, which a message fills in. */
  class WireCombined {
    var versionTag: string
    var id: WireID
    var method_: string
    var params: Raw
    var result: Raw
    var error: Option<WireError>

    constructor (versionTag: string)
      ensures Value() == Combined(versionTag, NoValue, "", None, None, None)
    {
      this.versionTag, id, method_, params, result, error := versionTag, NoValue, "", None, None, None;
    }

    function Value(): Combined
      reads this
    {
      Combined(versionTag, id, method_, params, result, error)
    }

    /** `marshal` of a request and of a response: the version and the other kind's fields stay. */
    method Fill(msg: Message)
      requires Value() == Combined(WireVersion, NoValue, "", None, None, None)
      modifies this
      ensures Value() == Marshal(msg)
    {
      match msg {
        case Request(i, m, p) =>
          id := IDValue(i);
          method_ := m;
          params := p;
        case Response(i, r, e) =>
          id := IDValue(i);
          error := ConvertError(e);
          result := r;
      }
    }
  }

  /** `toWireError`, with the search through the chain of wrapped errors. */
  method ConvertError(err: Option<Err>) returns (w: Option<WireError>)
    ensures w == ToWireError(err)
  {
    if err.None? {
      return None;
    }
    if err.value.Wire? {
      return Some(err.value.e);
    }
    var code := 0;
    var e := err.value;
    while e.Wrapping?
      invariant Wrapped(e) == Wrapped(err.value)
      decreases e
    {
      e := e.inner;
    }
    if e.Wire? {
      code := e.e.code;
    }
    w := Some(WireError(code, ErrorText(err.value), None));
  }
}
