/** The entities that flow through the pipeline. `StateRecord` and `FlightRecord` are
    what the maps, the JSON documents and the SQL rows hold; `AircraftState` is the
    object the parser fills in through a pointer. */
module Types {
  /** An IEEE double as far as the pipeline looks at it: compared with zero and
      with each other, never computed with. */
  datatype Float = Finite(r: real) | PosInf | NegInf | NaN {
    /** Go's `>`: NaN is above nothing and nothing is above NaN. */
    predicate Above(other: Float) {
      match (this, other)
      case (NaN, _) => false
      case (_, NaN) => false
      case (Finite(x), Finite(y)) => x > y
      case (PosInf, o) => !o.PosInf?
      case (Finite(_), o) => o.NegInf?
      case (NegInf, _) => false
    }
  }

  /** An order on the numbers, the infinities at its ends, and NaN outside it. */
  lemma AboveExactly(x: Float, y: Float)
    ensures x == NaN || y == NaN ==> !x.Above(y)
    ensures x.Finite? && y.Finite? ==> (x.Above(y) <==> x.r > y.r)
    ensures x != NaN && y != NaN ==> (x.Above(y) || y.Above(x) || x == y) && !(x.Above(y) && y.Above(x)) && !x.Above(x)
    ensures x.Finite? ==> PosInf.Above(x) && x.Above(NegInf) && PosInf.Above(NegInf)
  {
  }

  const ZERO := Finite(0.0)

  // Nanoseconds since the zero time.
  type Time = int

  const NO_TIME: Time := 0

  datatype Message = Message(raw: string, timestamp: Time)

  datatype StateRecord = StateRecord(
    hexIdent: string, callsign: string, altitude: int, groundSpeed: Float, track: Float,
    latitude: Float, longitude: Float, verticalRate: int, squawk: string, onGround: bool,
    msgType: int, timestamp: Time, sessionId: string)

  datatype FlightRecord = FlightRecord(
    sessionId: string, hexIdent: string, callsign: string, startedAt: Time, endedAt: Time,
    firstLatitude: Float, firstLongitude: Float, lastLatitude: Float, lastLongitude: Float,
    maxAltitude: int, maxGroundSpeed: Float)

  function BlankState(msgType: int, timestamp: Time): StateRecord {
    StateRecord("", "", 0, ZERO, ZERO, ZERO, ZERO, 0, "", false, msgType, timestamp, "")
  }

  const BLANK_FLIGHT := FlightRecord("", "", "", NO_TIME, NO_TIME, ZERO, ZERO, ZERO, ZERO, 0, ZERO)

  class AircraftState {
    var hexIdent: string
    var callsign: string
    var altitude: int
    var groundSpeed: Float
    var track: Float
    var latitude: Float
    var longitude: Float
    var verticalRate: int
    var squawk: string
    var onGround: bool
    var msgType: int
    var timestamp: Time
    var sessionId: string

    function Value(): StateRecord
      reads this
    {
      StateRecord(hexIdent, callsign, altitude, groundSpeed, track, latitude, longitude,
                  verticalRate, squawk, onGround, msgType, timestamp, sessionId)
    }

    constructor (msgType: int, timestamp: Time)
      ensures Value() == BlankState(msgType, timestamp)
    {
      this.hexIdent, this.callsign, this.altitude := "", "", 0;
      this.groundSpeed, this.track, this.latitude, this.longitude := ZERO, ZERO, ZERO, ZERO;
      this.verticalRate, this.squawk, this.onGround := 0, "", false;
      this.msgType, this.timestamp, this.sessionId := msgType, timestamp, "";
    }
  }
}
