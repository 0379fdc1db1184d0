/** The robot telemetry logger: each RSI datagram the controller sends is turned into
    one CSV row of 34 columns, stamped with the receiver's clock. The XML parser is a
    parameter; the model starts from the parsed message. */
module RsiLogger {
  import opened Wrappers
  import Decimal

  /** `fieldnames`, the CSV columns in the order they are written. */
  const Fieldnames: seq<string> := [
    "Timestamp", "X_RIst", "Y_RIst", "Z_RIst", "A_RIst", "B_RIst", "C_RIst",
    "X_RSol", "Y_RSol", "Z_RSol", "A_RSol", "B_RSol", "C_RSol",
    "Delay", "WeldVolt", "WeldAmps", "MotorAmps", "WFS", "IPOC", "ErrorNum",
    "C11", "C12", "C13", "C14", "C15", "C16", "C17", "C18", "C19", "C110",
    "i1", "i2", "i3", "i4"]

  /** The keys of the row dictionary, in the order it lists them. */
  datatype Column =
    | Timestamp
    | X_RIst | Y_RIst | Z_RIst | A_RIst | B_RIst | C_RIst
    | X_RSol | Y_RSol | Z_RSol | A_RSol | B_RSol | C_RSol
    | Delay | WeldVolt | WeldAmps | MotorAmps | WFS | IPOC | ErrorNum
    | C11 | C12 | C13 | C14 | C15 | C16 | C17 | C18 | C19 | C110
    | I1 | I2 | I3 | I4

  /** The key as the row dictionary spells it. */
  function ColumnName(c: Column): string {
    match c
    case Timestamp => "Timestamp"
    case X_RIst => "X_RIst"
    case Y_RIst => "Y_RIst"
    case Z_RIst => "Z_RIst"
    case A_RIst => "A_RIst"
    case B_RIst => "B_RIst"
    case C_RIst => "C_RIst"
    case X_RSol => "X_RSol"
    case Y_RSol => "Y_RSol"
    case Z_RSol => "Z_RSol"
    case A_RSol => "A_RSol"
    case B_RSol => "B_RSol"
    case C_RSol => "C_RSol"
    case Delay => "Delay"
    case WeldVolt => "WeldVolt"
    case WeldAmps => "WeldAmps"
    case MotorAmps => "MotorAmps"
    case WFS => "WFS"
    case IPOC => "IPOC"
    case ErrorNum => "ErrorNum"
    case C11 => "C11"
    case C12 => "C12"
    case C13 => "C13"
    case C14 => "C14"
    case C15 => "C15"
    case C16 => "C16"
    case C17 => "C17"
    case C18 => "C18"
    case C19 => "C19"
    case C110 => "C110"
    case I1 => "i1"
    case I2 => "i2"
    case I3 => "i3"
    case I4 => "i4"
  }

  /** The key's position in the row dictionary. */
  function Index(c: Column): (k: nat)
    ensures k < 34
  {
    match c
    case Timestamp => 0
    case X_RIst => 1
    case Y_RIst => 2
    case Z_RIst => 3
    case A_RIst => 4
    case B_RIst => 5
    case C_RIst => 6
    case X_RSol => 7
    case Y_RSol => 8
    case Z_RSol => 9
    case A_RSol => 10
    case B_RSol => 11
    case C_RSol => 12
    case Delay => 13
    case WeldVolt => 14
    case WeldAmps => 15
    case MotorAmps => 16
    case WFS => 17
    case IPOC => 18
    case ErrorNum => 19
    case C11 => 20
    case C12 => 21
    case C13 => 22
    case C14 => 23
    case C15 => 24
    case C16 => 25
    case C17 => 26
    case C18 => 27
    case C19 => 28
    case C110 => 29
    case I1 => 30
    case I2 => 31
    case I3 => 32
    case I4 => 33
  }

  /** The key at a position of the row dictionary. */
  function ColumnAt(k: nat): Column
    requires k < 34
  {
    if k == 0 then Timestamp
    else if k == 1 then X_RIst
    else if k == 2 then Y_RIst
    else if k == 3 then Z_RIst
    else if k == 4 then A_RIst
    else if k == 5 then B_RIst
    else if k == 6 then C_RIst
    else if k == 7 then X_RSol
    else if k == 8 then Y_RSol
    else if k == 9 then Z_RSol
    else if k == 10 then A_RSol
    else if k == 11 then B_RSol
    else if k == 12 then C_RSol
    else if k == 13 then Delay
    else if k == 14 then WeldVolt
    else if k == 15 then WeldAmps
    else if k == 16 then MotorAmps
    else if k == 17 then WFS
    else if k == 18 then IPOC
    else if k == 19 then ErrorNum
    else if k == 20 then C11
    else if k == 21 then C12
    else if k == 22 then C13
    else if k == 23 then C14
    else if k == 24 then C15
    else if k == 25 then C16
    else if k == 26 then C17
    else if k == 27 then C18
    else if k == 28 then C19
    else if k == 29 then C110
    else if k == 30 then I1
    else if k == 31 then I2
    else if k == 32 then I3
    else I4
  }

  /** The key at a position has that position. */
  lemma IndexOfColumnAt(k: nat)
    requires k < 34
    ensures Index(ColumnAt(k)) == k
  {
    if k < 9 {
    } else if k < 17 {
    } else if k < 26 {
    } else {
    }
  }

  /** Positions and keys correspond one to one. */
  lemma IndexInverse(c: Column)
    ensures ColumnAt(Index(c)) == c
  {
    if Index(c) < 9 {} else if Index(c) < 17 {} else if Index(c) < 26 {} else {}
  }

  /** KeySpelledAsFieldname for the timestamp and the two poses. */
  lemma PoseKeysSpelled(c: Column)
    requires 0 <= Index(c) < 13
    ensures |Fieldnames| == 34
    ensures ColumnName(c) == Fieldnames[Index(c)]
  {
  }

  /** KeySpelledAsFieldname for the delay and the process values. */
  lemma ProcessKeysSpelled(c: Column)
    requires 13 <= Index(c) < 20
    ensures |Fieldnames| == 34
    ensures ColumnName(c) == Fieldnames[Index(c)]
  {
  }

  /** KeySpelledAsFieldname for the Tech values C11..C110. */
  lemma TechKeysSpelled(c: Column)
    requires 20 <= Index(c) < 30
    ensures |Fieldnames| == 34
    ensures ColumnName(c) == Fieldnames[Index(c)]
  {
  }

  /** KeySpelledAsFieldname for the Status values i1..i4. */
  lemma StatusKeysSpelled(c: Column)
    requires 30 <= Index(c) < 34
    ensures |Fieldnames| == 34
    ensures ColumnName(c) == Fieldnames[Index(c)]
  {
  }

  /** The row dictionary spells each key as `fieldnames` does at the same position. */
  lemma KeySpelledAsFieldname(c: Column)
    ensures |Fieldnames| == 34
    ensures ColumnName(c) == Fieldnames[Index(c)]
  {
    if Index(c) < 13 {
      PoseKeysSpelled(c);
    } else if Index(c) < 20 {
      ProcessKeysSpelled(c);
    } else if Index(c) < 30 {
      TechKeysSpelled(c);
    } else {
      StatusKeysSpelled(c);
    }
  }

  /** A child element of the message: its attributes and its text, None when the
      element has no text. */
  datatype Element = Element(attrib: map<string, string>, text: Option<string>)

  /** A parsed message, as `root.find(tag)` sees it: the first child with each tag. */
  type Message = map<string, Element>

  /** A value of the row dictionary. */
  datatype RowValue =
    | Millis(ms: int)     // the integer timestamp
    | Str(s: string)      // an attribute or a text, copied verbatim
    | NoText              // `.text` of an element without text is None

  type Row = map<Column, RowValue>

  /** Why building the row raises. Neither is `ET.ParseError`, so neither is caught. */
  datatype RowError =
    | MissingElement(tag: string)                 // `find` gave None: AttributeError on `.text` / `.attrib`
    | MissingAttribute(tag: string, key: string)  // `attrib[key]` raises KeyError

  /** `attrib.get(key, default)`. */
  function Get(attrib: map<string, string>, key: string, default: string): string {
    if key in attrib then attrib[key] else default
  }

  function TextValue(e: Element): RowValue {
    match e.text
    case None => NoText
    case Some(s) => Str(s)
  }

  /** The elements and attributes the row reads without a default. */
  predicate Complete(msg: Message) {
    && "WeldVolt" in msg && "WeldAmps" in msg && "MotorAmps" in msg
    && "WFS" in msg && "IPOC" in msg && "ErrorNum" in msg
    && "Tech" in msg && "Status" in msg && "RIst" in msg && "RSol" in msg && "Delay" in msg
    && "X" in msg["RIst"].attrib && "Y" in msg["RIst"].attrib && "Z" in msg["RIst"].attrib
    && "A" in msg["RIst"].attrib && "B" in msg["RIst"].attrib && "C" in msg["RIst"].attrib
    && "X" in msg["RSol"].attrib && "Y" in msg["RSol"].attrib && "Z" in msg["RSol"].attrib
    && "A" in msg["RSol"].attrib && "B" in msg["RSol"].attrib && "C" in msg["RSol"].attrib
    && "D" in msg["Delay"].attrib
  }

  /** Lines 88-112: the value the row dictionary gives a column, for a complete
      message received at `timestamp` ms. */
  function ValueOf(msg: Message, timestamp: int, c: Column): RowValue
    requires Complete(msg)
  {
    var rist := msg["RIst"].attrib;
    var rsol := msg["RSol"].attrib;
    var tech := msg["Tech"].attrib;
    var status := msg["Status"].attrib;
    match c
    case Timestamp => Millis(timestamp)
    case X_RIst => Str(rist["X"])
    case Y_RIst => Str(rist["Y"])
    case Z_RIst => Str(rist["Z"])
    case A_RIst => Str(rist["A"])
    case B_RIst => Str(rist["B"])
    case C_RIst => Str(rist["C"])
    case X_RSol => Str(rsol["X"])
    case Y_RSol => Str(rsol["Y"])
    case Z_RSol => Str(rsol["Z"])
    case A_RSol => Str(rsol["A"])
    case B_RSol => Str(rsol["B"])
    case C_RSol => Str(rsol["C"])
    case Delay => Str(msg["Delay"].attrib["D"])
    case WeldVolt => TextValue(msg["WeldVolt"])
    case WeldAmps => TextValue(msg["WeldAmps"])
    case MotorAmps => TextValue(msg["MotorAmps"])
    case WFS => TextValue(msg["WFS"])
    case IPOC => TextValue(msg["IPOC"])
    case ErrorNum => TextValue(msg["ErrorNum"])
    case C11 => Str(Get(tech, "C11", "0.0"))
    case C12 => Str(Get(tech, "C12", "0.0"))
    case C13 => Str(Get(tech, "C13", "0.0"))
    case C14 => Str(Get(tech, "C14", "0.0"))
    case C15 => Str(Get(tech, "C15", "0.0"))
    case C16 => Str(Get(tech, "C16", "0.0"))
    case C17 => Str(Get(tech, "C17", "0.0"))
    case C18 => Str(Get(tech, "C18", "0.0"))
    case C19 => Str(Get(tech, "C19", "0.0"))
    case C110 => Str(Get(tech, "C110", "0.0"))
    case I1 => Str(Get(status, "i1", "0"))
    case I2 => Str(Get(status, "i2", "0"))
    case I3 => Str(Get(status, "i3", "0"))
    case I4 => Str(Get(status, "i4", "0"))
  }

  /** The row dictionary: one entry per column. */
  function RowOf(msg: Message, timestamp: int): Row
    requires Complete(msg)
  {
    map c: Column :: ValueOf(msg, timestamp, c)
  }

  /** `root.find(tag).attrib[key]`, or the exception it raises. */
  function Item(msg: Message, tag: string, key: string): Option<RowError> {
    if tag !in msg then Some(MissingElement(tag))
    else if key !in msg[tag].attrib then Some(MissingAttribute(tag, key))
    else None
  }

  /** The exception of the first access that raises, in the order lines 60-102 make them:
      the six texts, the Tech and Status attributes, then the dictionary's items. */
  function FirstMissing(msg: Message): (e: Option<RowError>)
    ensures e.None? <==> Complete(msg)
    ensures e.Some? && e.value.MissingElement? ==> e.value.tag !in msg
    ensures e.Some? && e.value.MissingAttribute? ==> e.value.tag in msg && e.value.key !in msg[e.value.tag].attrib
  {
    if "WeldVolt" !in msg then Some(MissingElement("WeldVolt"))
    else if "WeldAmps" !in msg then Some(MissingElement("WeldAmps"))
    else if "MotorAmps" !in msg then Some(MissingElement("MotorAmps"))
    else if "WFS" !in msg then Some(MissingElement("WFS"))
    else if "IPOC" !in msg then Some(MissingElement("IPOC"))
    else if "ErrorNum" !in msg then Some(MissingElement("ErrorNum"))
    else if "Tech" !in msg then Some(MissingElement("Tech"))
    else if "Status" !in msg then Some(MissingElement("Status"))
    else if Item(msg, "RIst", "X").Some? then Item(msg, "RIst", "X")
    else if Item(msg, "RIst", "Y").Some? then Item(msg, "RIst", "Y")
    else if Item(msg, "RIst", "Z").Some? then Item(msg, "RIst", "Z")
    else if Item(msg, "RIst", "A").Some? then Item(msg, "RIst", "A")
    else if Item(msg, "RIst", "B").Some? then Item(msg, "RIst", "B")
    else if Item(msg, "RIst", "C").Some? then Item(msg, "RIst", "C")
    else if Item(msg, "RSol", "X").Some? then Item(msg, "RSol", "X")
    else if Item(msg, "RSol", "Y").Some? then Item(msg, "RSol", "Y")
    else if Item(msg, "RSol", "Z").Some? then Item(msg, "RSol", "Z")
    else if Item(msg, "RSol", "A").Some? then Item(msg, "RSol", "A")
    else if Item(msg, "RSol", "B").Some? then Item(msg, "RSol", "B")
    else if Item(msg, "RSol", "C").Some? then Item(msg, "RSol", "C")
    else Item(msg, "Delay", "D")
  }

  /** Lines 56-112: the row for a parsed message, or the exception building it raises. */
  function BuildRow(msg: Message, timestamp: int): (r: Result<Row, RowError>)
    ensures r.Ok? <==> Complete(msg)
    ensures r.Ok? ==> r.value == RowOf(msg, timestamp)
    ensures r.Err? ==> Some(r.error) == FirstMissing(msg)
  {
    match FirstMissing(msg)
    case Some(e) => Err(e)
    case None => Ok(RowOf(msg, timestamp))
  }

  /** The texts are read before any attribute: a message that lacks a text element fails
      on the first one it lacks, whatever else it lacks. */
  lemma TextsReadFirst(msg: Message, timestamp: int)
    requires "WeldVolt" in msg && "WeldAmps" in msg && "MotorAmps" !in msg
    ensures BuildRow(msg, timestamp) == Err(MissingElement("MotorAmps"))
  {
  }

  /** The names of the row's keys are exactly the 34 field names, so `DictWriter`
      accepts the row and leaves no column empty. */
  lemma RowHasFieldnames(msg: Message, timestamp: int)
    requires Complete(msg)
    ensures (set c | c in RowOf(msg, timestamp).Keys :: ColumnName(c)) == set name | name in Fieldnames
    ensures |Fieldnames| == 34
  {
    var row := RowOf(msg, timestamp);
    forall c | c in row.Keys ensures ColumnName(c) in Fieldnames {
      KeySpelledAsFieldname(c);
    }
    forall name | name in Fieldnames ensures exists c | c in row.Keys :: ColumnName(c) == name {
      var k :| 0 <= k < |Fieldnames| && Fieldnames[k] == name;
      var c := ColumnAt(k);
      IndexOfColumnAt(k);
      KeySpelledAsFieldname(c);
    }
  }

  /** The Timestamp column is the receiver's clock, not a value of the message. */
  lemma TimestampFromClock(msg: Message, timestamp: int)
    requires Complete(msg)
    ensures RowOf(msg, timestamp)[Timestamp] == Millis(timestamp)
  {
  }

  /** The measured and the commanded pose are copied verbatim, axis by axis, and so is the delay. */
  lemma PoseCopied(msg: Message, timestamp: int)
    requires Complete(msg)
    ensures var row, rist, rsol := RowOf(msg, timestamp), msg["RIst"].attrib, msg["RSol"].attrib;
      && row[X_RIst] == Str(rist["X"]) && row[Y_RIst] == Str(rist["Y"]) && row[Z_RIst] == Str(rist["Z"])
      && row[A_RIst] == Str(rist["A"]) && row[B_RIst] == Str(rist["B"]) && row[C_RIst] == Str(rist["C"])
      && row[X_RSol] == Str(rsol["X"]) && row[Y_RSol] == Str(rsol["Y"]) && row[Z_RSol] == Str(rsol["Z"])
      && row[A_RSol] == Str(rsol["A"]) && row[B_RSol] == Str(rsol["B"]) && row[C_RSol] == Str(rsol["C"])
      && row[Delay] == Str(msg["Delay"].attrib["D"])
  {
  }

  /** The Tech columns and the Status columns, each with the attribute it reads. */
  const TechColumns: seq<(Column, string)> := [
    (C11, "C11"), (C12, "C12"), (C13, "C13"), (C14, "C14"), (C15, "C15"),
    (C16, "C16"), (C17, "C17"), (C18, "C18"), (C19, "C19"), (C110, "C110")]
  const StatusColumns: seq<(Column, string)> := [(I1, "i1"), (I2, "i2"), (I3, "i3"), (I4, "i4")]

  /** Each of C11..C110 has the name of the attribute it reads; a missing attribute is
      written as "0.0" and a present one is copied. */
  lemma TechDefaults(msg: Message, timestamp: int)
    requires Complete(msg)
    ensures forall k | 0 <= k < |TechColumns| ::
      var (c, key) := TechColumns[k];
      && ColumnName(c) == key
      && RowOf(msg, timestamp)[c] == Str(if key in msg["Tech"].attrib then msg["Tech"].attrib[key] else "0.0")
  {
  }

  /** Each of i1..i4 has the name of the attribute it reads; a missing attribute is
      written as "0" and a present one is copied. */
  lemma StatusDefaults(msg: Message, timestamp: int)
    requires Complete(msg)
    ensures forall k | 0 <= k < |StatusColumns| ::
      var (c, key) := StatusColumns[k];
      && ColumnName(c) == key
      && RowOf(msg, timestamp)[c] == Str(if key in msg["Status"].attrib then msg["Status"].attrib[key] else "0")
  {
  }

  /** The six process values are the elements' texts. */
  lemma TextsCopied(msg: Message, timestamp: int)
    requires Complete(msg)
    ensures var row := RowOf(msg, timestamp);
      && row[WeldVolt] == TextValue(msg["WeldVolt"]) && row[WeldAmps] == TextValue(msg["WeldAmps"])
      && row[MotorAmps] == TextValue(msg["MotorAmps"]) && row[WFS] == TextValue(msg["WFS"])
      && row[IPOC] == TextValue(msg["IPOC"]) && row[ErrorNum] == TextValue(msg["ErrorNum"])
  {
  }

  // ---------------------------------------------------------------- writing

  /** How `csv` writes one value: a string as it is, an integer in decimal, None as empty. */
  function Render(v: RowValue): string {
    match v
    case Millis(ms) => Decimal.FormatInt(ms)
    case Str(s) => s
    case NoText => ""
  }

  /** `writer.writerow(row)`: for each of `fieldnames` in order, the value of the key
      spelled that way, "" for a missing key. */
  function WrittenLine(row: Row): (line: seq<string>)
    ensures |line| == |Fieldnames|
    ensures forall c | c in row :: line[Index(c)] == Render(row[c])
  {
    assert |Fieldnames| == 34;
    forall c ensures ColumnAt(Index(c)) == c {
      IndexInverse(c);
    }
    seq(34, k requires 0 <= k < 34 => if ColumnAt(k) in row then Render(row[ColumnAt(k)]) else "")
  }

  /** Position k of a written line holds the column spelled as `fieldnames[k]`. */
  lemma WrittenUnderItsName(row: Row, k: nat)
    requires k < |Fieldnames|
    ensures ColumnName(ColumnAt(k)) == Fieldnames[k]
    ensures ColumnAt(k) in row ==> WrittenLine(row)[k] == Render(row[ColumnAt(k)])
  {
    IndexOfColumnAt(k);
    KeySpelledAsFieldname(ColumnAt(k));
  }

  /** A received datagram: its text and `time.time()` when it arrived, in seconds. */
  datatype Datagram = Datagram(payload: string, clock: real)

  /** `int(time.time() * 1000)`. */
  function ReceivedMillis(d: Datagram): int {
    Decimal.TruncateToInt(d.clock * 1000.0)
  }

  /** The lines the loop writes after the header, and the error that ends it, if any.
      `parse` is `ET.fromstring`, None where it raises `ET.ParseError`. */
  function LogSpec(datagrams: seq<Datagram>, parse: string -> Option<Message>): (seq<seq<string>>, Option<RowError>)
    decreases |datagrams|
  {
    if datagrams == [] then ([], None)
    else
      var last := |datagrams| - 1;
      var (lines, stop) := LogSpec(datagrams[..last], parse);
      if stop.Some? then (lines, stop)
      else
        match parse(datagrams[last].payload)
        case None => (lines, None)
        case Some(msg) =>
          match BuildRow(msg, ReceivedMillis(datagrams[last]))
          case Err(e) => (lines, Some(e))
          case Ok(row) => (lines + [WrittenLine(row)], None)
  }

  /** `receive_data()` over the datagrams that arrive: the header first, then one line per
      datagram that parses; a datagram that does not parse is skipped, and one whose
      message lacks an element or attribute ends the loop. */
  method ReceiveData(datagrams: seq<Datagram>, parse: string -> Option<Message>)
    returns (file: seq<seq<string>>, stop: Option<RowError>)
    ensures file == [Fieldnames] + LogSpec(datagrams, parse).0
    ensures stop == LogSpec(datagrams, parse).1
  {
    file := [Fieldnames];
    stop := None;
    var lines: seq<seq<string>> := [];
    for i := 0 to |datagrams|
      invariant LogSpec(datagrams[..i], parse) == (lines, None)
      invariant file == [Fieldnames] + lines
    {
      assert datagrams[..i + 1][..i] == datagrams[..i];
      var msg := parse(datagrams[i].payload);
      if msg.None? {
        continue;
      }
      var timestamp := ReceivedMillis(datagrams[i]);
      var row := BuildRow(msg.value, timestamp);
      if row.Err? {
        LogStopPersists(datagrams, i + 1, parse);
        return file, Some(row.error);
      }
      lines := lines + [WrittenLine(row.value)];
      file := file + [WrittenLine(row.value)];
    }
    assert datagrams[..|datagrams|] == datagrams;
  }

  lemma {:induction false} LogStopPersists(datagrams: seq<Datagram>, k: nat, parse: string -> Option<Message>)
    requires 0 < k <= |datagrams| && LogSpec(datagrams[..k], parse).1.Some?
    ensures LogSpec(datagrams, parse) == LogSpec(datagrams[..k], parse)
    decreases |datagrams| - k
  {
    if k < |datagrams| {
      assert datagrams[..k + 1][..k] == datagrams[..k];
      LogStopPersists(datagrams, k + 1, parse);
    } else {
      assert datagrams[..k] == datagrams;
    }
  }

  /** A datagram the parser rejects writes nothing and does not stop the loop. */
  lemma MalformedSkipped(datagrams: seq<Datagram>, d: Datagram, parse: string -> Option<Message>)
    requires parse(d.payload).None?
    ensures LogSpec(datagrams + [d], parse) == LogSpec(datagrams, parse)
  {
    assert (datagrams + [d])[..|datagrams|] == datagrams;
  }

  /** When nothing stops the loop, it writes one line per datagram that parses, each of
      34 fields, whose first field is the clock of its datagram. */
  lemma {:induction false} LinesPerDatagram(datagrams: seq<Datagram>, parse: string -> Option<Message>)
    requires LogSpec(datagrams, parse).1.None?
    ensures var lines := LogSpec(datagrams, parse).0;
      && |lines| == |ParsedIndices(datagrams, parse)|
      && forall j | 0 <= j < |lines| ::
           |lines[j]| == 34 && lines[j][0] == Decimal.FormatInt(ReceivedMillis(datagrams[ParsedIndices(datagrams, parse)[j]]))
    decreases |datagrams|
  {
    if datagrams != [] {
      var last := |datagrams| - 1;
      var prefix := datagrams[..last];
      assert forall i | 0 <= i < last :: prefix[i] == datagrams[i];
      LinesPerDatagram(prefix, parse);
      var msg := parse(datagrams[last].payload);
      var before := LogSpec(prefix, parse).0;
      var front := ParsedIndices(prefix, parse);
      if msg.Some? {
        var ts := ReceivedMillis(datagrams[last]);
        assert Complete(msg.value);
        LineStartsWithClock(msg.value, ts);
        assert LogSpec(datagrams, parse).0 == before + [WrittenLine(RowOf(msg.value, ts))];
        assert ParsedIndices(datagrams, parse) == front + [last];
      } else {
        assert LogSpec(datagrams, parse).0 == before;
        assert ParsedIndices(datagrams, parse) == front;
      }
    }
  }

  /** The line written for a complete message has 34 fields, the first being the clock. */
  lemma LineStartsWithClock(msg: Message, timestamp: int)
    requires Complete(msg)
    ensures |WrittenLine(RowOf(msg, timestamp))| == 34
    ensures WrittenLine(RowOf(msg, timestamp))[0] == Decimal.FormatInt(timestamp)
  {
    TimestampFromClock(msg, timestamp);
    assert Index(Timestamp) == 0;
  }

  /** The positions of the datagrams that parse, in arrival order. */
  function ParsedIndices(datagrams: seq<Datagram>, parse: string -> Option<Message>): (ks: seq<nat>)
    ensures forall j | 0 <= j < |ks| :: ks[j] < |datagrams| && parse(datagrams[ks[j]].payload).Some?
    ensures forall j, j' | 0 <= j < j' < |ks| :: ks[j] < ks[j']
    decreases |datagrams|
  {
    if datagrams == [] then []
    else
      var last := |datagrams| - 1;
      var front := ParsedIndices(datagrams[..last], parse);
      assert forall j | 0 <= j < |front| :: datagrams[..last][front[j]] == datagrams[front[j]];
      front + (if parse(datagrams[last].payload).Some? then [last] else [])
  }

  /** Every datagram that parses is listed. */
  lemma {:induction false} ParsedIndicesComplete(datagrams: seq<Datagram>, parse: string -> Option<Message>)
    ensures forall i | 0 <= i < |datagrams| && parse(datagrams[i].payload).Some? :: i in ParsedIndices(datagrams, parse)
    decreases |datagrams|
  {
    if datagrams != [] {
      var last := |datagrams| - 1;
      var prefix := datagrams[..last];
      ParsedIndicesComplete(prefix, parse);
      assert forall i | 0 <= i < last :: prefix[i] == datagrams[i];
    }
  }
}
