/** SBS text to aircraft state (internal/parser/parser.go). `Parse` says what the
    parser computes; `ParseMessage` computes it the way the source does, by writing
    through a state pointer; the lemmas relate both to a canonical printer. */
module Parser {
  import opened Wrappers
  import opened Text
  import opened Types

  const SELECTION_CHANGE := 1
  const NEW_AIRCRAFT := 2
  const NEW_ID := 3
  const NEW_CALL_SIGN := 4
  const NEW_ALTITUDE := 5
  const NEW_GROUND_SPEED := 6
  const NEW_TRACK := 7
  const NEW_LAT_LON := 8
  const NEW_GROUND := 9
  const STATUS := 10
  const AIRCRAFT := 11
  const ID := 12

  datatype ParseError = UnknownPrefix | TooFewFields | BadMessageType | UnknownMessageType

  // strconv.ParseFloat; its text format is not part of this model.
  type FloatReader = string -> Option<Float>

  function Fields(raw: string): (fields: seq<string>)
    ensures |fields| >= 1
  {
    Split(TrimSpace(raw), ",")
  }

  function PrefixType(prefix: string): int {
    if prefix == "STA" then STATUS
    else if prefix == "AIR" then AIRCRAFT
    else if prefix == "ID" then ID
    else 0
  }

  // ---- What each helper leaves in the state it is given

  function WithAltitude(s: StateRecord, fields: seq<string>): (r: StateRecord)
    requires |fields| >= 22
    ensures r == s.(altitude := r.altitude)
  {
    match Atoi(fields[12]) case Some(n) => s.(altitude := n) case None => s
  }

  function WithGroundSpeed(s: StateRecord, fields: seq<string>, read: FloatReader): (r: StateRecord)
    requires |fields| >= 22
    ensures r == s.(groundSpeed := r.groundSpeed)
  {
    match read(fields[13]) case Some(x) => s.(groundSpeed := x) case None => s
  }

  function WithTrack(s: StateRecord, fields: seq<string>, read: FloatReader): (r: StateRecord)
    requires |fields| >= 22
    ensures r == s.(track := r.track)
  {
    match read(fields[14]) case Some(x) => s.(track := x) case None => s
  }

  function WithOnGround(s: StateRecord, fields: seq<string>): (r: StateRecord)
    ensures r == s.(onGround := r.onGround)
  {
    if |fields| > 22 && Atoi(fields[22]).Some? then s.(onGround := Atoi(fields[22]).value == 1) else s
  }

  function WithPosition(s: StateRecord, fields: seq<string>, read: FloatReader): (r: StateRecord)
    requires |fields| >= 22
    ensures (r.hexIdent, r.callsign, r.msgType, r.timestamp, r.sessionId)
         == (s.hexIdent, s.callsign, s.msgType, s.timestamp, s.sessionId)
  {
    var s1 := WithAltitude(WithCoordinates(s, fields, read), fields);
    var s2 := WithTrack(WithGroundSpeed(s1, fields, read), fields, read);
    WithOnGround(WithRateAndSquawk(s2, fields), fields)
  }

  function WithCoordinates(s: StateRecord, fields: seq<string>, read: FloatReader): (r: StateRecord)
    requires |fields| >= 22
    ensures r == s.(latitude := r.latitude, longitude := r.longitude)
  {
    var s1 := match read(fields[15]) case Some(x) => s.(latitude := x) case None => s;
    match read(fields[16]) case Some(x) => s1.(longitude := x) case None => s1
  }

  function WithRateAndSquawk(s: StateRecord, fields: seq<string>): (r: StateRecord)
    requires |fields| >= 22
    ensures r == s.(verticalRate := r.verticalRate, squawk := r.squawk)
  {
    var s1 := match Atoi(fields[17]) case Some(n) => s.(verticalRate := n) case None => s;
    match Atoi(fields[18]) case Some(n) => s1.(squawk := Padded(n, 4)) case None => s1
  }

  function WithFields(s: StateRecord, fields: seq<string>, read: FloatReader): Result<StateRecord, ParseError>
    requires |fields| >= 22
  {
    if s.msgType == SELECTION_CHANGE || s.msgType == NEW_AIRCRAFT then Ok(s)
    else
      var h := s.(hexIdent := fields[5]);
      if s.msgType == NEW_ID then Ok(h)
      else if s.msgType == NEW_CALL_SIGN then Ok(h.(callsign := fields[11]))
      else if s.msgType == NEW_ALTITUDE then Ok(WithAltitude(h, fields))
      else if s.msgType == NEW_GROUND_SPEED then Ok(WithGroundSpeed(h, fields, read))
      else if s.msgType == NEW_TRACK then Ok(WithTrack(h, fields, read))
      else if s.msgType == NEW_LAT_LON then Ok(WithPosition(h, fields, read))
      else if s.msgType == NEW_GROUND then Ok(WithOnGround(h, fields))
      else if STATUS <= s.msgType <= ID then Ok(h.(callsign := fields[11]))
      else Err(UnknownMessageType)
  }

  function Parse(raw: string, timestamp: Time, read: FloatReader): Result<StateRecord, ParseError> {
    var fields := Fields(raw);
    if fields[0] == "MSG" then
      if |fields| < 22 then Err(TooFewFields)
      else
        match Atoi(fields[1])
        case None => Err(BadMessageType)
        case Some(t) => WithFields(BlankState(t, timestamp), fields, read)
    else if PrefixType(fields[0]) != 0 then
      if |fields| < 10 then Err(TooFewFields)
      else Ok(BlankState(PrefixType(fields[0]), timestamp).(hexIdent := fields[4], callsign := fields[9]))
    else Err(UnknownPrefix)
  }

  // ---- The source's form: helpers that write through the state pointer

  method ParseAltitude(state: AircraftState, fields: seq<string>)
    requires |fields| >= 22
    modifies state
    ensures state.Value() == WithAltitude(old(state.Value()), fields)
  {
    var n := Atoi(fields[12]);
    if n.Some? { state.altitude := n.value; }
  }

  method ParseGroundSpeed(state: AircraftState, fields: seq<string>, read: FloatReader)
    requires |fields| >= 22
    modifies state
    ensures state.Value() == WithGroundSpeed(old(state.Value()), fields, read)
  {
    var x := read(fields[13]);
    if x.Some? { state.groundSpeed := x.value; }
  }

  method ParseTrack(state: AircraftState, fields: seq<string>, read: FloatReader)
    requires |fields| >= 22
    modifies state
    ensures state.Value() == WithTrack(old(state.Value()), fields, read)
  {
    var x := read(fields[14]);
    if x.Some? { state.track := x.value; }
  }

  method ParseOnGround(state: AircraftState, fields: seq<string>)
    modifies state
    ensures state.Value() == WithOnGround(old(state.Value()), fields)
  {
    if |fields| > 22 {
      var n := Atoi(fields[22]);
      if n.Some? { state.onGround := n.value == 1; }
    }
  }

  method ParseLatLon(state: AircraftState, fields: seq<string>, read: FloatReader)
    requires |fields| >= 22
    modifies state
    ensures state.Value() == WithPosition(old(state.Value()), fields, read)
  {
    ParseCoordinates(state, fields, read);
    ParseAltitude(state, fields);
    ParseGroundSpeed(state, fields, read);
    ParseTrack(state, fields, read);
    ParseRateAndSquawk(state, fields);
    ParseOnGround(state, fields);
  }

  // The two stretches of parseLatLon that the source writes inline.
  method ParseCoordinates(state: AircraftState, fields: seq<string>, read: FloatReader)
    requires |fields| >= 22
    modifies state
    ensures state.Value() == WithCoordinates(old(state.Value()), fields, read)
  {
    var lat := read(fields[15]);
    if lat.Some? { state.latitude := lat.value; }
    var lon := read(fields[16]);
    if lon.Some? { state.longitude := lon.value; }
  }

  method ParseRateAndSquawk(state: AircraftState, fields: seq<string>)
    requires |fields| >= 22
    modifies state
    ensures state.Value() == WithRateAndSquawk(old(state.Value()), fields)
  {
    var rate := Atoi(fields[17]);
    if rate.Some? { state.verticalRate := rate.value; }
    var squawk := Atoi(fields[18]);
    if squawk.Some? { state.squawk := Padded(squawk.value, 4); }
  }

  method ParseMessageFields(state: AircraftState, fields: seq<string>, read: FloatReader)
    returns (error: Option<ParseError>)
    requires |fields| >= 22
    modifies state
    ensures match WithFields(old(state.Value()), fields, read)
            case Ok(s) => error == None && state.Value() == s
            case Err(e) => error == Some(e)
  {
    var t := state.msgType;
    if t != SELECTION_CHANGE && t != NEW_AIRCRAFT {
      state.hexIdent := fields[5];
    }
    if t == SELECTION_CHANGE || t == NEW_AIRCRAFT || t == NEW_ID {
    } else if t == NEW_CALL_SIGN {
      state.callsign := fields[11];
    } else if t == NEW_ALTITUDE {
      ParseAltitude(state, fields);
    } else if t == NEW_GROUND_SPEED {
      ParseGroundSpeed(state, fields, read);
    } else if t == NEW_TRACK {
      ParseTrack(state, fields, read);
    } else if t == NEW_LAT_LON {
      ParseLatLon(state, fields, read);
    } else if t == NEW_GROUND {
      ParseOnGround(state, fields);
    } else if t == STATUS || t == AIRCRAFT || t == ID {
      if |fields| > 11 { state.callsign := fields[11]; }
    } else {
      return Some(UnknownMessageType);
    }
    return None;
  }

  method ParseMessage(raw: string, timestamp: Time, read: FloatReader)
    returns (result: Result<AircraftState, ParseError>)
    ensures match Parse(raw, timestamp, read)
            case Ok(s) => result.Ok? && fresh(result.value) && result.value.Value() == s
            case Err(e) => result == Err(e)
  {
    var fields := Split(TrimSpace(raw), ",");
    var messageType := fields[0];
    if messageType == "MSG" {
      if |fields| < 22 { return Err(TooFewFields); }
    } else if messageType == "STA" || messageType == "AIR" || messageType == "ID" {
      if |fields| < 10 { return Err(TooFewFields); }
      var status := new AircraftState(PrefixType(messageType), timestamp);
      if |fields| > 4 { status.hexIdent := fields[4]; }
      if |fields| > 9 { status.callsign := fields[9]; }
      return Ok(status);
    } else {
      return Err(UnknownPrefix);
    }
    var msgType := Atoi(fields[1]);
    if msgType.None? { return Err(BadMessageType); }
    var state := new AircraftState(msgType.value, timestamp);
    var error := ParseMessageFields(state, fields, read);
    if error.Some? { return Err(error.value); }
    return Ok(state);
  }

  // ---- Acceptance: exactly which texts become a state

  /** Acceptance is decided by the prefix, the field count and the message type alone:
      no field value can make a message fail, and every accepted type lies in 1..12. */
  lemma AcceptedExactly(raw: string, timestamp: Time, read: FloatReader)
    ensures var fields := Fields(raw);
            var result := Parse(raw, timestamp, read);
            && (result.Ok? <==>
                 || (fields[0] == "MSG" && |fields| >= 22 && Atoi(fields[1]).Some? && 1 <= Atoi(fields[1]).value <= 12)
                 || (PrefixType(fields[0]) != 0 && |fields| >= 10))
            && (result.Ok? ==> 1 <= result.value.msgType <= 12 && result.value.timestamp == timestamp)
  {
    var fields := Fields(raw);
    if fields[0] == "MSG" && |fields| >= 22 && Atoi(fields[1]).Some? {
      FieldsAccepted(BlankState(Atoi(fields[1]).value, timestamp), fields, read);
    }
  }

  lemma FieldsAccepted(s: StateRecord, fields: seq<string>, read: FloatReader)
    requires |fields| >= 22
    ensures var r := WithFields(s, fields, read);
            && (r.Ok? <==> 1 <= s.msgType <= 12)
            && (r.Ok? ==> r.value.msgType == s.msgType && r.value.timestamp == s.timestamp)
  {
  }

  /** The integer of a column, or zero. */
  function IntegerIn(field: string): int {
    match Atoi(field) case Some(n) => n case None => 0
  }

  function NumberIn(field: string, read: FloatReader): Float {
    match read(field) case Some(x) => x case None => ZERO
  }

  /** Which column each field comes from and which message types carry it, on any accepted line.
      The ground flag is set by exactly one number in the 23rd column. */
  lemma MsgFieldsExactly(raw: string, timestamp: Time, read: FloatReader)
    requires Fields(raw)[0] == "MSG" && Parse(raw, timestamp, read).Ok?
    ensures |Fields(raw)| >= 22
    ensures var (f, s) := (Fields(raw), Parse(raw, timestamp, read).value);
            && Atoi(f[1]) == Some(s.msgType) && s.timestamp == timestamp && s.sessionId == ""
            && s.hexIdent == (if 3 <= s.msgType <= 12 then f[5] else "")
            && s.callsign == (if s.msgType in {4, 10, 11, 12} then f[11] else "")
            && s.altitude == (if s.msgType in {5, 8} then IntegerIn(f[12]) else 0)
            && s.verticalRate == (if s.msgType == 8 then IntegerIn(f[17]) else 0)
            && s.squawk == (if s.msgType == 8 && Atoi(f[18]).Some? then Padded(Atoi(f[18]).value, 4) else "")
    ensures var (f, s) := (Fields(raw), Parse(raw, timestamp, read).value);
            && s.groundSpeed == (if s.msgType in {6, 8} then NumberIn(f[13], read) else ZERO)
            && s.track == (if s.msgType in {7, 8} then NumberIn(f[14], read) else ZERO)
            && s.latitude == (if s.msgType == 8 then NumberIn(f[15], read) else ZERO)
            && s.longitude == (if s.msgType == 8 then NumberIn(f[16], read) else ZERO)
  {
    FieldsAccepted(BlankState(Atoi(Fields(raw)[1]).value, timestamp), Fields(raw), read);
    WithFieldsExactly(BlankState(Atoi(Fields(raw)[1]).value, timestamp), Fields(raw), read);
    hide WithFields, Fields, Atoi, Padded;
  }

  lemma WithFieldsExactly(b: StateRecord, f: seq<string>, read: FloatReader)
    requires |f| >= 22 && b == BlankState(b.msgType, b.timestamp) && 1 <= b.msgType <= 12
    ensures WithFields(b, f, read) == Ok(StateRecord(
              if 3 <= b.msgType <= 12 then f[5] else "",
              if b.msgType in {4, 10, 11, 12} then f[11] else "",
              if b.msgType in {5, 8} then IntegerIn(f[12]) else 0,
              if b.msgType in {6, 8} then NumberIn(f[13], read) else ZERO,
              if b.msgType in {7, 8} then NumberIn(f[14], read) else ZERO,
              if b.msgType == 8 then NumberIn(f[15], read) else ZERO,
              if b.msgType == 8 then NumberIn(f[16], read) else ZERO,
              if b.msgType == 8 then IntegerIn(f[17]) else 0,
              if b.msgType == 8 && Atoi(f[18]).Some? then Padded(Atoi(f[18]).value, 4) else "",
              b.msgType in {8, 9} && |f| > 22 && Atoi(f[22]) == Some(1),
              b.msgType, b.timestamp, ""))
  {
    hide Atoi, Padded;
    if b.msgType == 8 {
      PositionExactly(b.(hexIdent := f[5]), f, read);
    }
  }

  lemma PositionExactly(h: StateRecord, f: seq<string>, read: FloatReader)
    requires |f| >= 22 && h == BlankState(h.msgType, h.timestamp).(hexIdent := h.hexIdent)
    ensures WithPosition(h, f, read)
         == h.(altitude := IntegerIn(f[12]), groundSpeed := NumberIn(f[13], read), track := NumberIn(f[14], read),
               latitude := NumberIn(f[15], read), longitude := NumberIn(f[16], read), verticalRate := IntegerIn(f[17]),
               squawk := if Atoi(f[18]).Some? then Padded(Atoi(f[18]).value, 4) else "",
               onGround := |f| > 22 && Atoi(f[22]) == Some(1))
  {
    hide Atoi, Padded;
    var s1 := WithAltitude(WithCoordinates(h, f, read), f);
    assert s1 == h.(latitude := NumberIn(f[15], read), longitude := NumberIn(f[16], read), altitude := IntegerIn(f[12]));
    var s2 := WithTrack(WithGroundSpeed(s1, f, read), f, read);
    assert s2 == s1.(groundSpeed := NumberIn(f[13], read), track := NumberIn(f[14], read));
    var s3 := WithRateAndSquawk(s2, f);
    assert s3 == s2.(verticalRate := IntegerIn(f[17]), squawk := if Atoi(f[18]).Some? then Padded(Atoi(f[18]).value, 4) else "");
  }

  /** The ground flag of any accepted line: set by the number one in the 23rd column of a position
      or ground message, and by nothing else. */
  lemma GroundFlagExactly(raw: string, timestamp: Time, read: FloatReader)
    ensures var (f, result) := (Fields(raw), Parse(raw, timestamp, read));
            result.Ok? ==>
              (result.value.onGround <==>
                 result.value.msgType in {8, 9} && f[0] == "MSG" && |f| > 22 && Atoi(f[22]) == Some(1))
  {
    if Fields(raw)[0] == "MSG" && Parse(raw, timestamp, read).Ok? {
      FieldsAccepted(BlankState(Atoi(Fields(raw)[1]).value, timestamp), Fields(raw), read);
      WithFieldsExactly(BlankState(Atoi(Fields(raw)[1]).value, timestamp), Fields(raw), read);
    }
    hide WithFields, Fields, Atoi, Padded;
  }

  /** The three short messages carry an identifier and a callsign and nothing else. */
  lemma ShortFieldsExactly(raw: string, timestamp: Time, read: FloatReader)
    requires Fields(raw)[0] != "MSG" && Parse(raw, timestamp, read).Ok?
    ensures |Fields(raw)| >= 10
    ensures var (f, s) := (Fields(raw), Parse(raw, timestamp, read).value);
            && s == BlankState(s.msgType, timestamp).(hexIdent := f[4], callsign := f[9])
            && s.msgType == (if f[0] == "STA" then 10 else if f[0] == "AIR" then 11 else 12)
            && f[0] in {"STA", "AIR", "ID"}
  {
    hide Split, TrimSpace;
  }

  /** Which error a rejected line gets. */
  lemma RejectedExactly(raw: string, timestamp: Time, read: FloatReader)
    ensures var (f, result) := (Fields(raw), Parse(raw, timestamp, read));
            var short := f[0] in {"STA", "AIR", "ID"};
            && (result == Err(UnknownPrefix) <==> f[0] != "MSG" && !short)
            && (result == Err(TooFewFields) <==> (f[0] == "MSG" && |f| < 22) || (short && |f| < 10))
            && (result == Err(BadMessageType) <==> f[0] == "MSG" && |f| >= 22 && Atoi(f[1]) == None)
            && (result == Err(UnknownMessageType) <==>
                  f[0] == "MSG" && |f| >= 22 && Atoi(f[1]).Some? && !(1 <= Atoi(f[1]).value <= 12))
  {
    hide Split, TrimSpace, Atoi;
    var fields := Fields(raw);
    if fields[0] == "MSG" && |fields| >= 22 && Atoi(fields[1]).Some? {
      WithFieldsFails(BlankState(Atoi(fields[1]).value, timestamp), fields, read);
    }
  }

  lemma WithFieldsFails(s: StateRecord, fields: seq<string>, read: FloatReader)
    requires |fields| >= 22
    ensures var r := WithFields(s, fields, read);
            r.Err? <==> !(1 <= s.msgType <= 12)
    ensures var r := WithFields(s, fields, read);
            r.Err? ==> r == Err(UnknownMessageType)
  {
  }

  // ---- The canonical printer and its inverse

  type FloatWriter = Float -> string

  /** The 23 columns, those the parser never looks at left empty. */
  function Columns(msgType: string, hexIdent: string, callsign: string, altitude: string,
                   groundSpeed: string, track: string, latitude: string, longitude: string,
                   verticalRate: string, squawk: string, onGround: string): (fields: seq<string>)
    ensures |fields| == 23
    ensures fields[0] == "MSG" && fields[1] == msgType && fields[5] == hexIdent && fields[11] == callsign
    ensures fields[12] == altitude && fields[13] == groundSpeed && fields[14] == track
    ensures fields[15] == latitude && fields[16] == longitude && fields[17] == verticalRate
    ensures fields[18] == squawk && fields[22] == onGround
    ensures forall i :: 0 <= i < 23 && i !in {0, 1, 5, 11, 12, 13, 14, 15, 16, 17, 18, 22} ==> fields[i] == ""
  {
    ["MSG", msgType, "", "", "", hexIdent] + ["", "", "", "", "", callsign] +
    [altitude, groundSpeed, track, latitude, longitude] + [verticalRate, squawk] + ["", "", "", onGround]
  }

  function PrintedFields(s: StateRecord, write: FloatWriter): seq<string> {
    Columns(Padded(s.msgType, 0), s.hexIdent, s.callsign, Padded(s.altitude, 0),
            write(s.groundSpeed), write(s.track), write(s.latitude), write(s.longitude),
            Padded(s.verticalRate, 0), s.squawk, if s.onGround then "1" else "0")
  }

  function Print(s: StateRecord, write: FloatWriter): string {
    Join(PrintedFields(s, write), ",")
  }

  ghost predicate Writable(x: Float, write: FloatWriter, read: FloatReader) {
    ',' !in write(x) && read(write(x)) == Some(x)
  }

  /** A squawk is absent or the four-column rendering of some integer. */
  ghost predicate Normalised(squawk: string) {
    squawk == "" || exists n :: INT_MIN <= n <= INT_MAX && squawk == Padded(n, 4)
  }

  /** What a state must satisfy to be written as one comma-separated line. */
  ghost predicate Printable(s: StateRecord, write: FloatWriter, read: FloatReader) {
    && 1 <= s.msgType <= 12
    && INT_MIN <= s.altitude <= INT_MAX && INT_MIN <= s.verticalRate <= INT_MAX
    && ',' !in s.hexIdent && ',' !in s.callsign && Normalised(s.squawk)
    && Writable(s.groundSpeed, write, read) && Writable(s.track, write, read)
    && Writable(s.latitude, write, read) && Writable(s.longitude, write, read)
  }

  /** The part of a state that a message of its type carries. */
  function Carried(s: StateRecord, timestamp: Time): StateRecord {
    var t := s.msgType;
    var located := t == NEW_LAT_LON;
    StateRecord(
      if t <= NEW_AIRCRAFT then "" else s.hexIdent,
      if t == NEW_CALL_SIGN || t >= STATUS then s.callsign else "",
      if t == NEW_ALTITUDE || located then s.altitude else 0,
      if t == NEW_GROUND_SPEED || located then s.groundSpeed else ZERO,
      if t == NEW_TRACK || located then s.track else ZERO,
      if located then s.latitude else ZERO,
      if located then s.longitude else ZERO,
      if located then s.verticalRate else 0,
      if located then s.squawk else "",
      if t == NEW_GROUND || located then s.onGround else false,
      t, timestamp, "")
  }

  /** The parser inverts the printer: for every message type it recovers exactly the
      fields that type carries and leaves the others blank. */
  lemma ParseInvertsPrint(s: StateRecord, timestamp: Time, write: FloatWriter, read: FloatReader)
    requires Printable(s, write, read)
    ensures Parse(Print(s, write), timestamp, read) == Ok(Carried(s, timestamp))
  {
    var fields := PrintedFields(s, write);
    PrintedFieldsSplitBack(s, write, read);
    PrintedFieldsSay(s, write, read);
    FieldsCarry(s, fields, timestamp, read);
  }

  /** Each column of `fields` reads as the corresponding part of `s`. */
  ghost predicate Says(fields: seq<string>, s: StateRecord, read: FloatReader) {
    && |fields| == 23
    && fields[0] == "MSG" && Atoi(fields[1]) == Some(s.msgType)
    && fields[5] == s.hexIdent && fields[11] == s.callsign
    && Atoi(fields[12]) == Some(s.altitude)
    && read(fields[13]) == Some(s.groundSpeed) && read(fields[14]) == Some(s.track)
    && read(fields[15]) == Some(s.latitude) && read(fields[16]) == Some(s.longitude)
    && Atoi(fields[17]) == Some(s.verticalRate)
    && (match Atoi(fields[18]) case Some(n) => s.squawk == Padded(n, 4) case None => s.squawk == "")
    && Atoi(fields[22]) == Some(if s.onGround then 1 else 0)
  }

  lemma FieldsCarry(s: StateRecord, fields: seq<string>, timestamp: Time, read: FloatReader)
    requires Says(fields, s, read) && 1 <= s.msgType <= 12
    ensures WithFields(BlankState(s.msgType, timestamp), fields, read) == Ok(Carried(s, timestamp))
  {
    hide WithPosition, WithAltitude, WithGroundSpeed, WithTrack, WithOnGround;
    var blank := BlankState(s.msgType, timestamp);
    var h := blank.(hexIdent := s.hexIdent);
    if s.msgType == NEW_LAT_LON {
      PositionCarried(s, h, fields, read);
    } else if NEW_ALTITUDE <= s.msgType <= NEW_GROUND {
      MeasureCarried(s, h, fields, read);
    } else {
      assert WithFields(blank, fields, read) ==
             if s.msgType <= NEW_AIRCRAFT then Ok(blank)
             else if s.msgType == NEW_ID then Ok(h)
             else Ok(h.(callsign := fields[11]));
    }
  }

  lemma MeasureCarried(s: StateRecord, h: StateRecord, fields: seq<string>, read: FloatReader)
    requires Says(fields, s, read)
    ensures WithAltitude(h, fields) == h.(altitude := s.altitude)
    ensures WithGroundSpeed(h, fields, read) == h.(groundSpeed := s.groundSpeed)
    ensures WithTrack(h, fields, read) == h.(track := s.track)
    ensures WithOnGround(h, fields) == h.(onGround := s.onGround)
  {
  }

  lemma PositionCarried(s: StateRecord, h: StateRecord, fields: seq<string>, read: FloatReader)
    requires Says(fields, s, read) && h.squawk == ""
    ensures WithPosition(h, fields, read)
         == h.(latitude := s.latitude, longitude := s.longitude, altitude := s.altitude,
               groundSpeed := s.groundSpeed, track := s.track, verticalRate := s.verticalRate,
               squawk := s.squawk, onGround := s.onGround)
  {
    var s1 := WithAltitude(WithCoordinates(h, fields, read), fields);
    assert s1 == h.(latitude := s.latitude, longitude := s.longitude, altitude := s.altitude);
    var s2 := WithTrack(WithGroundSpeed(s1, fields, read), fields, read);
    assert s2 == s1.(groundSpeed := s.groundSpeed, track := s.track);
    var s3 := WithRateAndSquawk(s2, fields);
    assert s3 == s2.(verticalRate := s.verticalRate, squawk := s.squawk);
  }

  lemma PrintedFieldsSay(s: StateRecord, write: FloatWriter, read: FloatReader)
    requires Printable(s, write, read)
    ensures Says(PrintedFields(s, write), s, read)
  {
    AtoiPadded(s.msgType, 0);
    AtoiPadded(s.altitude, 0);
    AtoiPadded(s.verticalRate, 0);
    SquawkReadBack(s.squawk);
    FlagReadsBack(s.onGround);
    ColumnsSay(s, PrintedFields(s, write), Padded(s.msgType, 0), Padded(s.altitude, 0),
               Padded(s.verticalRate, 0), write, read);
  }

  lemma ColumnsSay(s: StateRecord, fields: seq<string>, msgType: string, altitude: string,
                   verticalRate: string, write: FloatWriter, read: FloatReader)
    requires Printable(s, write, read)
    requires fields == Columns(msgType, s.hexIdent, s.callsign, altitude, write(s.groundSpeed), write(s.track),
                               write(s.latitude), write(s.longitude), verticalRate, s.squawk,
                               if s.onGround then "1" else "0")
    requires Atoi(msgType) == Some(s.msgType) && Atoi(altitude) == Some(s.altitude)
    requires Atoi(verticalRate) == Some(s.verticalRate)
    requires match Atoi(s.squawk) case Some(n) => Padded(n, 4) == s.squawk case None => s.squawk == ""
    requires Atoi(if s.onGround then "1" else "0") == Some(if s.onGround then 1 else 0)
    ensures Says(fields, s, read)
  {
  }

  lemma FlagReadsBack(flag: bool)
    ensures Atoi(if flag then "1" else "0") == Some(if flag then 1 else 0)
  {
    var text := if flag then "1" else "0";
    assert Front(text) == "";
    AtoiSigned(false, text);
    assert "" + text == text;
  }

  lemma PrintedFieldsSplitBack(s: StateRecord, write: FloatWriter, read: FloatReader)
    requires Printable(s, write, read)
    ensures Fields(Print(s, write)) == PrintedFields(s, write)
  {
    PrintedFieldsFree(s, write, read);
    FieldsSplitBack(PrintedFields(s, write));
  }

  lemma FieldsSplitBack(fields: seq<string>)
    requires |fields| >= 1 && forall i :: 0 <= i < |fields| ==> ',' !in fields[i]
    requires fields[0] == "MSG" && (Last(fields) == "0" || Last(fields) == "1")
    ensures Fields(Join(fields, ",")) == fields
  {
    forall i | 0 <= i < |fields| ensures Cuttable(fields[i], ",") {
      CuttableByChar(fields[i], ',');
    }
    SplitJoin(fields, ",");
    JoinEnds(fields, ",");
    TrimKeeps(Join(fields, ","));
  }

  lemma TrimKeeps(line: string)
    requires line != "" && !IsSpace(line[0]) && !IsSpace(Last(line))
    ensures TrimSpace(line) == line
  {
  }

  lemma PrintedFieldsFree(s: StateRecord, write: FloatWriter, read: FloatReader)
    requires Printable(s, write, read)
    ensures var fields := PrintedFields(s, write);
            && (forall i :: 0 <= i < |fields| ==> ',' !in fields[i])
            && fields[0] == "MSG" && (Last(fields) == "0" || Last(fields) == "1")
  {
    AtoiPadded(s.msgType, 0);
    AtoiPadded(s.altitude, 0);
    AtoiPadded(s.verticalRate, 0);
    SquawkFree(s.squawk);
    ColumnsFree(Padded(s.msgType, 0), s.hexIdent, s.callsign, Padded(s.altitude, 0),
                write(s.groundSpeed), write(s.track), write(s.latitude), write(s.longitude),
                Padded(s.verticalRate, 0), s.squawk, if s.onGround then "1" else "0");
  }

  lemma ColumnsFree(msgType: string, hexIdent: string, callsign: string, altitude: string,
                    groundSpeed: string, track: string, latitude: string, longitude: string,
                    verticalRate: string, squawk: string, onGround: string)
    requires ',' !in msgType && ',' !in hexIdent && ',' !in callsign && ',' !in altitude
    requires ',' !in groundSpeed && ',' !in track && ',' !in latitude && ',' !in longitude
    requires ',' !in verticalRate && ',' !in squawk && ',' !in onGround
    ensures var fields := Columns(msgType, hexIdent, callsign, altitude, groundSpeed, track,
                                  latitude, longitude, verticalRate, squawk, onGround);
            forall i :: 0 <= i < |fields| ==> ',' !in fields[i]
  {
    assert ',' !in "MSG" && ',' !in "";
  }

  lemma SquawkFree(squawk: string)
    requires Normalised(squawk)
    ensures ',' !in squawk
  {
    if squawk != "" {
      var n :| INT_MIN <= n <= INT_MAX && squawk == Padded(n, 4);
      AtoiPadded(n, 4);
    }
  }

  lemma SquawkReadBack(squawk: string)
    requires Normalised(squawk)
    ensures match Atoi(squawk) case Some(n) => Padded(n, 4) == squawk case None => squawk == ""
  {
    if squawk != "" {
      var n :| INT_MIN <= n <= INT_MAX && squawk == Padded(n, 4);
      AtoiPadded(n, 4);
    }
  }

  /** Normalising a squawk twice is normalising it once, and every code of four digits
      is already normal. */
  lemma SquawkNormalisation(text: string)
    ensures Atoi(text).Some? ==> Atoi(Padded(Atoi(text).value, 4)) == Atoi(text)
    ensures |text| == 4 && AllDigits(text) ==> Atoi(text).Some? && Padded(Atoi(text).value, 4) == text
  {
    if Atoi(text).Some? {
      AtoiPadded(Atoi(text).value, 4);
    }
    if |text| == 4 && AllDigits(text) {
      FourDigits(text);
    }
  }

  lemma FourDigits(text: string)
    requires |text| == 4 && AllDigits(text)
    ensures Atoi(text).Some? && Padded(Atoi(text).value, 4) == text
  {
    DigitsOfValue(text);
    DigitsBounded(text);
    AtoiSigned(false, text);
    assert "" + text == text;
    FourColumns(text, DigitsValue(text));
  }

  lemma FourColumns(text: string, n: nat)
    requires |text| == 4 && Renders(text, n)
    ensures Padded(n, 4) == text
  {
    assert "" + Zeros(4 - |Digits(n)|) + Digits(n) == text;
  }
}
