/** What the code generator makes of a protocol description: the message table with its sizes, the
    input of the protocol hash, and the generated configuration of the link. */
module Codegen {
  import opened Checksums
  import opened Wire
  import opened StreamParser

  /** A value of the YAML file; `Other` is a list, a mapping or a float. */
  datatype Value = Absent | Null | Number(n: int) | Flag(b: bool) | Text(s: string) | Other(filled: bool)

  datatype Fields = NoFields | NotAList(filled: bool) | Types(types: seq<string>)

  datatype Message = Message(id: Value, direction: Value, reliable: Value, fields: Fields)

  datatype Settings = Settings(
    header1: Value, header2: Value, checksum: Value, bufferSize: Value,
    requireHandshake: Value, ignoreVersionMismatch: Value, strictHeartbeat: Value,
    heartbeatInterval: Value, heartbeatTimeout: Value, retryInterval: Value, maxRetries: Value, qosDepth: Value,
    enableHeartbeat: Value, baudrate: Value)

  /** The node's parameters. */
  datatype Serial = Serial(baudrate: Value, port: Value)

  /** A description; `aliases` maps type names of the file to C types. */
  datatype Source = Source(settings: Settings, serial: Serial, messages: seq<Message>, aliases: map<string, string>)

  function Or(v: Value, fallback: Value): Value
  {
    if v.Absent? then fallback else v
  }

  predicate Truthy(v: Value)
  {
    match v
    case Absent => false
    case Null => false
    case Number(n) => n != 0
    case Flag(b) => b
    case Text(s) => s != ""
    case Other(filled) => filled
  }

  // ---------------------------------------------------------------------
  // Types and sizes
  // ---------------------------------------------------------------------

  predicate Supported(ctype: string)
  {
    ctype in {"uint8_t", "uint16_t", "uint32_t", "int32_t", "float"}
  }

  /** One byte for an unknown type. */
  function SizeOf(ctype: string): (n: nat)
    ensures 1 <= n <= 4
  {
    if ctype == "uint16_t" then 2
    else if ctype == "uint32_t" || ctype == "int32_t" || ctype == "float" then 4
    else 1
  }

  function CType(name: string, aliases: map<string, string>): string
  {
    if name in aliases then aliases[name] else name
  }

  function CTypes(names: seq<string>, aliases: map<string, string>): (s: seq<string>)
    ensures |s| == |names|
  {
    seq(|names|, i requires 0 <= i < |names| => CType(names[i], aliases))
  }

  function SumOfSizes(ctypes: seq<string>): (n: nat)
  {
    if ctypes == [] then 0 else SumOfSizes(ctypes[..|ctypes| - 1]) + SizeOf(ctypes[|ctypes| - 1])
  }

  function FieldNames(m: Message): seq<string>
  {
    if m.fields.Types? then m.fields.types else []
  }

  function PayloadSize(m: Message, aliases: map<string, string>): nat
  {
    SumOfSizes(CTypes(FieldNames(m), aliases))
  }

  /** Reliable messages carry one more byte on the wire. */
  function WirePayloadSize(m: Message, aliases: map<string, string>): nat
  {
    if Truthy(m.reliable) then PayloadSize(m, aliases) + 1 else PayloadSize(m, aliases)
  }

  /** The generator's loop over the fields. */
  method MeasurePayload(m: Message, aliases: map<string, string>) returns (size: nat)
    ensures size == WirePayloadSize(m, aliases)
  {
    var names := FieldNames(m);
    size := 0;
    for i := 0 to |names|
      invariant size == SumOfSizes(CTypes(names[..i], aliases))
    {
      assert CTypes(names[..i + 1], aliases)[..i] == CTypes(names[..i], aliases);
      size := size + SizeOf(CType(names[i], aliases));
    }
    assert names[..|names|] == names;
    if Truthy(m.reliable) {
      size := size + 1;
    }
  }

  lemma {:induction false} SumAtLeast(ctypes: seq<string>)
    ensures |ctypes| <= SumOfSizes(ctypes)
  {
    if ctypes != [] {
      SumAtLeast(ctypes[..|ctypes| - 1]);
    }
  }

  // ---------------------------------------------------------------------
  // The message table
  // ---------------------------------------------------------------------

  const ACK: Message := Message(Number(0xFD), Text("both"), Absent, Types(["uint8_t", "uint8_t"]))
  const HEARTBEAT: Message := Message(Number(0xFE), Text("both"), Absent, Types(["uint32_t"]))
  const HANDSHAKE: Message := Message(Number(0xFF), Text("both"), Absent, Types(["uint32_t"]))

  const SYSTEM_MESSAGES: seq<Message> := [ACK, HEARTBEAT, HANDSHAKE]

  /** What an ID compares by: numbers compare, and so do booleans; nothing else compares with them. */
  function KeyOf(v: Value): Option<int>
  {
    match v
    case Number(n) => Some(n)
    case Flag(b) => Some(if b then 1 else 0)
    case _ => None
  }

  function Key(m: Message): int
  {
    if KeyOf(m.id).Some? then KeyOf(m.id).value else 0
  }

  /** Behind all that are not greater; every comparison needs two keys. */
  function TryInsert(sorted: seq<Message>, m: Message): Option<seq<Message>>
  {
    if sorted == [] then Some([m])
    else
      var last := sorted[|sorted| - 1];
      if KeyOf(last.id).None? || KeyOf(m.id).None? then None
      else if KeyOf(last.id).value <= KeyOf(m.id).value then Some(sorted + [m])
      else match TryInsert(sorted[..|sorted| - 1], m)
        case None => None
        case Some(before) => Some(before + [last])
  }

  /** The stable sort by ID. */
  function TrySort(messages: seq<Message>): Option<seq<Message>>
  {
    if messages == [] then Some([])
    else match TrySort(messages[..|messages| - 1])
      case None => None
      case Some(before) => TryInsert(before, messages[|messages| - 1])
  }

  /** The same where all compare. */
  function Insert(sorted: seq<Message>, m: Message): seq<Message>
  {
    if sorted == [] || Key(sorted[|sorted| - 1]) <= Key(m) then sorted + [m]
    else Insert(sorted[..|sorted| - 1], m) + [sorted[|sorted| - 1]]
  }

  function Sort(messages: seq<Message>): seq<Message>
  {
    if messages == [] then []
    else Insert(Sort(messages[..|messages| - 1]), messages[|messages| - 1])
  }

  function All(src: Source): seq<Message>
  {
    src.messages + SYSTEM_MESSAGES
  }

  /** Business and built-in messages in the order of their IDs, or a failure to compare them. */
  function Merge(src: Source): Option<seq<Message>>
  {
    TrySort(All(src))
  }

  /** What merging yields when it succeeds. */
  function Table(src: Source): seq<Message>
  {
    Sort(All(src))
  }

  // ---------------------------------------------------------------------
  // The hash input
  // ---------------------------------------------------------------------

  /** What the hash sees of a message. */
  datatype Contract = Contract(id: Value, direction: Value, reliable: bool, ctypes: seq<string>)

  datatype HashInput = HashInput(
    header1: Value, header2: Value, checksum: string, requireHandshake: bool, contracts: seq<Contract>)

  function Upper(s: string): (r: string)
    ensures |r| == |s|
  {
    seq(|s|, i requires 0 <= i < |s| => if 'a' <= s[i] <= 'z' then s[i] - 'a' + 'A' else s[i])
  }

  /** The setting as an upper-case name; a null reads as the name of no checksum at all. */
  function ChecksumName(v: Value): string
  {
    match v
    case Absent => "CRC8"
    case Null => "NONE"
    case Text(s) => Upper(s)
    case Number(_) => "(a number)"
    case Flag(b) => if b then "TRUE" else "FALSE"
    case Other(_) => "(a list or a mapping)"
  }

  function AlgoNamed(name: string): Option<Algo>
  {
    if name == "NONE" then Some(NoChecksum)
    else if name == "SUM8" then Some(Sum8)
    else if name == "XOR8" then Some(Xor8)
    else if name == "CRC8" then Some(Crc8)
    else None
  }

  function ContractOf(m: Message, aliases: map<string, string>): Contract
  {
    Contract(m.id, m.direction, Truthy(m.reliable), CTypes(FieldNames(m), aliases))
  }

  function Contracts(messages: seq<Message>, aliases: map<string, string>): (s: seq<Contract>)
    ensures |s| == |messages|
  {
    seq(|messages|, i requires 0 <= i < |messages| => ContractOf(messages[i], aliases))
  }

  function HashInputOf(src: Source): HashInput
  {
    HashInput(src.settings.header1, src.settings.header2, ChecksumName(src.settings.checksum),
              Truthy(Or(src.settings.requireHandshake, Flag(true))), Contracts(Table(src), src.aliases))
  }

  // ---------------------------------------------------------------------
  // The generated configuration
  // ---------------------------------------------------------------------

  /** The generated switch: the first case with the ID decides. */
  function ExpectedPayloadSize(table: seq<Message>, aliases: map<string, string>, id: byte): nat
  {
    if table == [] then 0
    else if table[0].id == Number(id) then WirePayloadSize(table[0], aliases)
    else ExpectedPayloadSize(table[1..], aliases, id)
  }

  predicate IsReliablePacket(table: seq<Message>, id: byte)
  {
    if table == [] then false
    else if table[0].id == Number(id) then Truthy(table[0].reliable)
    else IsReliablePacket(table[1..], id)
  }

  function MaxPayload(table: seq<Message>, aliases: map<string, string>): nat
  {
    if table == [] then 0
    else
      var rest := MaxPayload(table[1..], aliases);
      var size := WirePayloadSize(table[0], aliases);
      if size > rest then size else rest
  }

  function Ids(table: seq<Message>): set<byte>
  {
    if table == [] then {}
    else Ids(table[1..]) + if ByteValue(table[0].id) then {AsByte(table[0].id)} else {}
  }

  function AsByte(v: Value): byte
  {
    if v.Number? && 0 <= v.n < 256 then v.n else 0
  }

  /** The link's configuration as both ends get it. */
  function WireOf(src: Source): Protocol
  {
    var table := Table(src);
    var name := AlgoNamed(ChecksumName(src.settings.checksum));
    Protocol(
      AsByte(src.settings.header1), AsByte(src.settings.header2), if name.Some? then name.value else NoChecksum,
      map id: byte | id in Ids(table) :: ExpectedPayloadSize(table, src.aliases, id),
      (set id: byte | id in Ids(table) && IsReliablePacket(table, id)),
      MaxPayload(table, src.aliases))
  }

  // ---------------------------------------------------------------------
  // Validation
  // ---------------------------------------------------------------------

  predicate Positive(v: Value)
  {
    v.Number? && v.n > 0
  }

  predicate ByteValue(v: Value)
  {
    v.Number? && 0 <= v.n <= 0xFF
  }

  predicate BasicsOk(c: Settings)
  {
    && AlgoNamed(ChecksumName(c.checksum)).Some?
    && ByteValue(c.header1) && ByteValue(c.header2)
    && Positive(c.bufferSize)
    && c.enableHeartbeat.Absent? && c.baudrate.Absent?
  }

  predicate FlagsOk(c: Settings)
  {
    && Or(c.requireHandshake, Flag(true)).Flag?
    && Or(c.ignoreVersionMismatch, Flag(true)).Flag?
    && Or(c.strictHeartbeat, Flag(true)).Flag?
  }

  predicate NumbersOk(c: Settings)
  {
    && Positive(Or(c.heartbeatInterval, Number(1000)))
    && Positive(Or(c.heartbeatTimeout, Number(3000)))
    && Positive(Or(c.retryInterval, Number(100)))
    && Positive(Or(c.maxRetries, Number(3)))
    && Positive(Or(c.qosDepth, Number(10)))
  }

  predicate SettingsOk(c: Settings)
  {
    && BasicsOk(c) && FlagsOk(c) && NumbersOk(c)
    && Or(c.heartbeatTimeout, Number(3000)).n >= Or(c.heartbeatInterval, Number(1000)).n
  }

  predicate SerialOk(serial: Serial)
  {
    Positive(serial.baudrate) && serial.port.Text? && serial.port.s != ""
  }

  predicate Reserved(id: int)
  {
    0xFD <= id <= 0xFF
  }

  predicate DirectionOk(v: Value)
  {
    v in {Text("tx"), Text("rx"), Text("both")}
  }

  /** A null ID is neither missing nor wrong to the validation. */
  predicate IdOk(v: Value)
  {
    v.Null? || (ByteValue(v) && !Reserved(v.n))
  }

  predicate FieldsOk(m: Message, aliases: map<string, string>)
  {
    && m.fields.Types? && m.fields.types != []
    && forall i | 0 <= i < |m.fields.types| :: Supported(CType(m.fields.types[i], aliases))
  }

  predicate MessageOk(m: Message, aliases: map<string, string>)
  {
    && IdOk(m.id)
    && DirectionOk(m.direction)
    && (m.reliable.Absent? || m.reliable.Flag?)
    && (Truthy(m.reliable) ==> m.direction == Text("tx"))
    && FieldsOk(m, aliases)
    && WirePayloadSize(m, aliases) <= 255
  }

  predicate DistinctIds(messages: seq<Message>)
  {
    forall i, j | 0 <= i < j < |messages| && messages[i].id.Number? :: messages[i].id != messages[j].id
  }

  /** Messages whose frames are measured against the buffer. */
  predicate Sizable(m: Message)
  {
    (m.id.Number? || m.id.Flag?) && m.fields.Types?
  }

  predicate BufferHolds(size: int, src: Source)
  {
    forall m | m in All(src) && Sizable(m) :: WirePayloadSize(m, src.aliases) + OVERHEAD <= size
  }

  predicate Acceptable(src: Source)
  {
    && SettingsOk(src.settings) && SerialOk(src.serial)
    && (forall i | 0 <= i < |src.messages| :: MessageOk(src.messages[i], src.aliases))
    && DistinctIds(src.messages)
    && BufferHolds(src.settings.bufferSize.n, src)
  }

  datatype Error =
    | BadSetting(key: string)
    | ShortHeartbeatTimeout
    | MissingKey(message: nat, key: string)
    | BadDirection(message: nat)
    | BadReliable(message: nat)
    | ReliableNotTx(message: nat)
    | BadId(message: nat)
    | ReservedId(message: nat)
    | DuplicateId(message: nat, earlier: nat)
    | BadFields(message: nat)
    | UnknownType(message: nat, field: nat)
    | PayloadTooLong(message: nat, size: nat)
    | BufferTooSmall(largest: nat)

  datatype Entry = Entry(key: string, value: Value)

  function Flags(c: Settings): seq<Entry>
  {
    [Entry("require_handshake", Or(c.requireHandshake, Flag(true))),
     Entry("ignore_version_mismatch", Or(c.ignoreVersionMismatch, Flag(true))),
     Entry("strict_heartbeat", Or(c.strictHeartbeat, Flag(true)))]
  }

  function Numbers(c: Settings): seq<Entry>
  {
    [Entry("heartbeat_interval_ms", Or(c.heartbeatInterval, Number(1000))),
     Entry("heartbeat_timeout_ms", Or(c.heartbeatTimeout, Number(3000))),
     Entry("reliable_retry_interval_ms", Or(c.retryInterval, Number(100))),
     Entry("reliable_max_retries", Or(c.maxRetries, Number(3))),
     Entry("qos_depth", Or(c.qosDepth, Number(10)))]
  }

  method ValidateFlags(flags: seq<Entry>) returns (errors: seq<Error>)
    ensures errors == [] <==> forall k | 0 <= k < |flags| :: flags[k].value.Flag?
    ensures forall k | 0 <= k < |flags| :: BadSetting(flags[k].key) in errors || flags[k].value.Flag?
  {
    errors := [];
    for i := 0 to |flags|
      invariant errors == [] <==> forall k | 0 <= k < i :: flags[k].value.Flag?
      invariant forall k | 0 <= k < i :: BadSetting(flags[k].key) in errors || flags[k].value.Flag?
    {
      if !flags[i].value.Flag? {
        errors := errors + [BadSetting(flags[i].key)];
      }
    }
  }

  method ValidateNumbers(numbers: seq<Entry>) returns (errors: seq<Error>)
    ensures errors == [] <==> forall k | 0 <= k < |numbers| :: Positive(numbers[k].value)
    ensures forall k | 0 <= k < |numbers| :: BadSetting(numbers[k].key) in errors || Positive(numbers[k].value)
  {
    errors := [];
    for i := 0 to |numbers|
      invariant errors == [] <==> forall k | 0 <= k < i :: Positive(numbers[k].value)
      invariant forall k | 0 <= k < i :: BadSetting(numbers[k].key) in errors || Positive(numbers[k].value)
    {
      if !Positive(numbers[i].value) {
        errors := errors + [BadSetting(numbers[i].key)];
      }
    }
  }

  /** The keys that have no default, and two that are no longer supported. */
  method ValidateBasics(c: Settings) returns (errors: seq<Error>)
    ensures errors == [] <==> BasicsOk(c)
  {
    errors := [];
    if !c.baudrate.Absent? {
      errors := errors + [BadSetting("baudrate")];
    }
    if AlgoNamed(ChecksumName(c.checksum)).None? {
      errors := errors + [BadSetting("checksum")];
    }
    if !ByteValue(c.header1) {
      errors := errors + [BadSetting("head_byte_1")];
    }
    if !ByteValue(c.header2) {
      errors := errors + [BadSetting("head_byte_2")];
    }
    if !Positive(c.bufferSize) {
      errors := errors + [BadSetting("buffer_size")];
    }
    if !c.enableHeartbeat.Absent? {
      errors := errors + [BadSetting("enable_heartbeat")];
    }
  }

  lemma ListedKeys(c: Settings)
    ensures (forall k | 0 <= k < |Flags(c)| :: Flags(c)[k].value.Flag?) <==> FlagsOk(c)
    ensures (forall k | 0 <= k < |Numbers(c)| :: Positive(Numbers(c)[k].value)) <==> NumbersOk(c)
  {
    var flags, numbers := Flags(c), Numbers(c);
    assert FlagsOk(c) <==> flags[0].value.Flag? && flags[1].value.Flag? && flags[2].value.Flag?;
    assert NumbersOk(c) <==> Positive(numbers[0].value) && Positive(numbers[1].value) && Positive(numbers[2].value)
                             && Positive(numbers[3].value) && Positive(numbers[4].value);
  }

  method ValidateSettings(c: Settings) returns (errors: seq<Error>)
    ensures errors == [] <==> SettingsOk(c)
  {
    hide BasicsOk, FlagsOk, Flags, Numbers, AlgoNamed;
    ListedKeys(c);
    errors := ValidateBasics(c);
    var flagErrors := ValidateFlags(Flags(c));
    var numberErrors := ValidateNumbers(Numbers(c));
    errors := errors + flagErrors + numberErrors;
    var interval, timeout := Or(c.heartbeatInterval, Number(1000)), Or(c.heartbeatTimeout, Number(3000));
    if Positive(interval) && Positive(timeout) && timeout.n < interval.n {
      errors := errors + [ShortHeartbeatTimeout];
    }
  }

  /** The fields of message `k`. */
  method ValidateFields(k: nat, m: Message, aliases: map<string, string>) returns (errors: seq<Error>)
    ensures errors == [] <==> FieldsOk(m, aliases) && WirePayloadSize(m, aliases) <= 255
  {
    errors := [];
    match m.fields
    case NoFields =>
      errors := errors + [MissingKey(k, "fields")];
    case NotAList(_) =>
      errors := errors + [BadFields(k)];
    case Types(names) =>
      if names == [] {
        errors := errors + [BadFields(k)];
      }
      for i := 0 to |names|
        invariant errors == [] <==> names != [] && forall j | 0 <= j < i :: Supported(CType(names[j], aliases))
      {
        if !Supported(CType(names[i], aliases)) {
          errors := errors + [UnknownType(k, i)];
        }
      }
      if names != [] {
        var size := MeasurePayload(m, aliases);
        if size > 0xFF {
          errors := errors + [PayloadTooLong(k, size)];
        }
      }
  }

  /** Everything about message `k` but its ID. */
  predicate RestOk(m: Message, aliases: map<string, string>)
  {
    MessageOk(m.(id := Null), aliases)
  }

  method ValidateMessage(k: nat, m: Message, aliases: map<string, string>) returns (errors: seq<Error>)
    ensures errors == [] <==> RestOk(m, aliases)
  {
    errors := [];
    if m.direction.Absent? {
      errors := errors + [MissingKey(k, "direction")];
    }
    if m.direction !in {Text("tx"), Text("rx"), Text("both")} {
      errors := errors + [BadDirection(k)];
    }
    if !m.reliable.Absent? && !m.reliable.Flag? {
      errors := errors + [BadReliable(k)];
    }
    if Truthy(m.reliable) && m.direction != Text("tx") {
      errors := errors + [ReliableNotTx(k)];
    }
    var fieldErrors := ValidateFields(k, m, aliases);
    errors := errors + fieldErrors;
  }

  /** The first messages up to `k` in the table of IDs seen so far, each under its first user. */
  ghost predicate Seen(messages: seq<Message>, k: nat, seen: map<int, nat>)
    requires k <= |messages|
  {
    && (forall id | id in seen :: seen[id] < k && messages[seen[id]].id == Number(id))
    && (forall i | 0 <= i < k && IdOk(messages[i].id) && messages[i].id.Number? ::
          messages[i].id.n in seen && seen[messages[i].id.n] <= i)
  }

  /** Messages are told to share an ID only if they do. */
  ghost predicate Truthful(messages: seq<Message>, errors: seq<Error>)
  {
    forall e | e in errors && e.DuplicateId? ::
      e.earlier < e.message < |messages| && messages[e.earlier].id == messages[e.message].id
  }

  /** The IDs of all messages: each is in range, not reserved, and used once. */
  method ValidateIds(messages: seq<Message>) returns (errors: seq<Error>)
    ensures errors == [] <==> (forall i | 0 <= i < |messages| :: IdOk(messages[i].id)) && DistinctIds(messages)
    ensures Truthful(messages, errors)
  {
    errors := [];
    var seen: map<int, nat> := map[];
    for k := 0 to |messages|
      invariant Seen(messages, k, seen)
      invariant errors == [] <==> (forall i | 0 <= i < k :: IdOk(messages[i].id)) && DistinctIds(messages[..k])
      invariant Truthful(messages, errors)
    {
      var id := messages[k].id;
      var found := [];
      if id.Absent? {
        found := [MissingKey(k, "id")];
      } else if id.Null? {
      } else if !ByteValue(id) {
        found := [BadId(k)];
      } else if Reserved(id.n) {
        found := [ReservedId(k)];
      } else if id.n in seen {
        found := [DuplicateId(k, seen[id.n])];
      }
      OneMoreId(messages, k, seen, found);
      if id.Number? && found == [] {
        seen := seen[id.n := k];
      }
      errors := errors + found;
    }
    assert messages[..|messages|] == messages;
  }

  /** Message `k` is found wrong exactly when it spoils the IDs up to it. */
  lemma OneMoreId(messages: seq<Message>, k: nat, seen: map<int, nat>, found: seq<Error>)
    requires k < |messages| && Seen(messages, k, seen)
    requires found == [] <==> IdOk(messages[k].id) && (messages[k].id.Number? ==> messages[k].id.n !in seen)
    ensures (forall i | 0 <= i <= k :: IdOk(messages[i].id)) && DistinctIds(messages[..k + 1])
            <==> (forall i | 0 <= i < k :: IdOk(messages[i].id)) && DistinctIds(messages[..k]) && found == []
  {
    var before, upTo := messages[..k], messages[..k + 1];
    assert upTo == before + [messages[k]];
    if DistinctIds(upTo) {
      assert forall i, j | 0 <= i < j < k :: before[i] == upTo[i] && before[j] == upTo[j];
    }
    if messages[k].id.Number? && messages[k].id.n in seen {
      assert upTo[seen[messages[k].id.n]].id == upTo[k].id;
    }
  }

  method LargestFrame(src: Source) returns (largest: nat)
    ensures forall size: int :: BufferHolds(size, src) <==> largest <= size
  {
    var all := All(src);
    largest := 0;
    assert all[|src.messages|] == ACK && Sizable(ACK);
    for i := 0 to |all|
      invariant forall j | 0 <= j < i && Sizable(all[j]) :: WirePayloadSize(all[j], src.aliases) + OVERHEAD <= largest
      invariant largest == 0 || exists j | 0 <= j < i ::
          Sizable(all[j]) && largest == WirePayloadSize(all[j], src.aliases) + OVERHEAD
      invariant i > |src.messages| ==> largest > 0
    {
      if Sizable(all[i]) {
        var size := MeasurePayload(all[i], src.aliases);
        if size + OVERHEAD > largest {
          largest := size + OVERHEAD;
        }
      }
    }
  }

  /** Validation finds nothing exactly in the acceptable descriptions. */
  method Validate(src: Source) returns (errors: seq<Error>)
    ensures errors == [] <==> Acceptable(src)
  {
    errors := ValidateSettings(src.settings);
    if !Positive(src.serial.baudrate) {
      errors := errors + [BadSetting("baudrate")];
    }
    if !src.serial.port.Text? || src.serial.port.s == "" {
      errors := errors + [BadSetting("port")];
    }
    var idErrors := ValidateIds(src.messages);
    errors := errors + idErrors;
    ghost var before := errors;
    for k := 0 to |src.messages|
      invariant errors == [] <==> before == [] && forall i | 0 <= i < k :: RestOk(src.messages[i], src.aliases)
    {
      var more := ValidateMessage(k, src.messages[k], src.aliases);
      errors := errors + more;
    }
    if Positive(src.settings.bufferSize) {
      var largest := LargestFrame(src);
      if src.settings.bufferSize.n < largest {
        errors := errors + [BufferTooSmall(largest)];
      }
    }
    RestAndId(src);
  }

  lemma RestAndId(src: Source)
    ensures forall i | 0 <= i < |src.messages| ::
              var m := src.messages[i];
              MessageOk(m, src.aliases) <==> RestOk(m, src.aliases) && IdOk(m.id)
  {
    forall i | 0 <= i < |src.messages|
      ensures MessageOk(src.messages[i], src.aliases)
              <==> RestOk(src.messages[i], src.aliases) && IdOk(src.messages[i].id)
    {
      var m := src.messages[i];
      assert FieldNames(m.(id := Null)) == FieldNames(m);
    }
  }
}
