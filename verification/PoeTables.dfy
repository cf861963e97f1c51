/**
 * Row and table assembly of `show poe interface configuration` and
 * `show poe interface state`. The stores are inputs: the configuration table
 * with its natural-sort key order, and the state store's key query and record
 * lookup. What would be printed is returned as a `Report`.
 */
module PoeTables {
  import opened Wrappers
  import opened PyStr
  import opened PoeFormat

  const PORT_STR := "Ethernet"
  const POE_PORT_STATE := "POE_PORT_STATE"

  const ConfigHeader: seq<string> := ["Port", "En/Dis", "PWR Limit", "Priority"]

  const StateHeader: seq<string> :=
    ["Port", "Status", "En/Dis", "Priority", "Protocol", "Class",
     "PWR Consump", "PWR Limit", "Voltage", "Current"]

  /** The state-record field shown in each column after the port (the port column has none). */
  const StateFields: seq<string> :=
    ["", STATUS, ENABLED, PRIORITY, PROTOCOL, CLASS, PWR_CONSUMP, PWR_LIMIT, VOLTAGE, CURRENT]

  /** What a command prints: a message, or a table with its header. */
  datatype Report<Cell> = Message(text: string) | Table(header: seq<string>, body: seq<seq<Cell>>)

  // ---------------------------------------------------------------------------
  // configuration

  /** A CONFIG DB key: a plain string, or a tuple for multi-part keys. */
  datatype ConfigKey = Name(name: string) | Parts(parts: seq<string>)

  /** The key's components; a key that is not a tuple is a 1-tuple. */
  function KeyParts(key: ConfigKey): (parts: seq<string>)
    ensures key.Name? ==> parts == [key.name]
    ensures key.Parts? ==> parts == key.parts
  {
    match key
    case Name(n) => [n]
    case Parts(p) => p
  }

  const EnabledAttr := Attr("enabled", "PoE status on port. [enable/disable]", false, false, "")
  const PowerLimitAttr := Attr("power-limit", "Power limit on PoE port. [0..999]", false, true, "")
  const PriorityAttr := Attr("priority", "Port priority level. [crit/high/low]", false, false, "")

  function ScalarCells(parts: seq<string>): (cells: seq<FieldValue>)
    ensures |cells| == |parts| && forall i :: 0 <= i < |parts| ==> cells[i] == Str(parts[i])
  {
    seq(|parts|, i requires 0 <= i < |parts| => Str(parts[i]))
  }

  /** The stored value of a scalar field, or "N/A" when the entry lacks it. */
  function StoredOrNA(entry: Entry, name: string): FieldValue {
    if name in entry then entry[name] else Str(NA)
  }

  /** One configuration row: the key's components, then enabled, power-limit and priority. */
  function ConfigRow(key: ConfigKey, entry: Entry): (row: seq<FieldValue>)
    ensures |row| == |KeyParts(key)| + 3
    ensures row[..|KeyParts(key)|] == ScalarCells(KeyParts(key))
    ensures row[|KeyParts(key)|..] ==
      [StoredOrNA(entry, "enabled"), StoredOrNA(entry, "power-limit"), StoredOrNA(entry, "priority")]
  {
    ScalarCells(KeyParts(key)) +
      [FormatAttrValue(entry, EnabledAttr), FormatAttrValue(entry, PowerLimitAttr), FormatAttrValue(entry, PriorityAttr)]
  }

  /** A row lines up with the four-column header exactly when its key has one component. */
  lemma ConfigRowWidth(key: ConfigKey, entry: Entry)
    ensures |ConfigRow(key, entry)| == |ConfigHeader| <==> |KeyParts(key)| == 1
  {
  }

  /** A port with `enabled` and `priority` but no `power-limit` shows "N/A" in that column. */
  lemma ConfigRowMissingLimit()
    ensures ConfigRow(Name("Ethernet0"), map["enabled" := Str("enable"), "priority" := Str("high")])
         == [Str("Ethernet0"), Str("enable"), Str(NA), Str("high")]
  {
  }

  /** `order` lists every key of `keys` exactly once (what `natsorted` returns). */
  predicate IsOrderingOf(order: seq<ConfigKey>, keys: set<ConfigKey>) {
    && (forall i :: 0 <= i < |order| ==> order[i] in keys)
    && (forall k :: k in keys ==> k in order)
    && (forall i, j :: 0 <= i < j < |order| ==> order[i] != order[j])
  }

  /** An ordering of a key set has one position per key. */
  lemma {:induction false} OrderingLength(order: seq<ConfigKey>, keys: set<ConfigKey>)
    requires IsOrderingOf(order, keys)
    ensures |order| == |keys|
  {
    if order == [] {
      assert keys == {};
    } else {
      var rest := keys - {order[0]};
      forall k | k in rest ensures k in order[1..] {
        var i :| 0 <= i < |order| && order[i] == k;
        assert i != 0;
      }
      OrderingLength(order[1..], rest);
    }
  }

  /**
   * `configuration`: one row per table key, in the given (natural-sort)
   * order; printed with the header even when the table is empty.
   */
  method Configuration(table: map<ConfigKey, Entry>, order: seq<ConfigKey>) returns (report: Report<FieldValue>)
    requires IsOrderingOf(order, table.Keys)
    ensures report.Table? && report.header == ConfigHeader
    ensures |report.body| == |order| == |table|
    ensures forall i :: 0 <= i < |order| ==> report.body[i] == ConfigRow(order[i], table[order[i]])
  {
    var body: seq<seq<FieldValue>> := [];
    for i := 0 to |order|
      invariant |body| == i
      invariant forall j :: 0 <= j < i ==> body[j] == ConfigRow(order[j], table[order[j]])
    {
      var key := order[i];
      var entry := table[key];
      body := body + [ConfigRow(key, entry)];
    }
    OrderingLength(order, table.Keys);
    report := Table(ConfigHeader, body);
  }

  // ---------------------------------------------------------------------------
  // state

  /** `key.split(delimiter)[1]`: the port of a `POE_PORT_STATE<delimiter><port>` key. */
  function PortId(key: string, delimiter: string): (r: Result<string, Error>)
    ensures delimiter == "" ==> r == Err(ValueError("empty separator"))
    ensures delimiter != "" ==> (r.Ok? <==> FindFrom(key, delimiter, 0).Some?)
    ensures r.Ok? ==> delimiter != "" && |Split(key, delimiter)| >= 2 && r.value == Split(key, delimiter)[1]
    ensures delimiter != "" && r.Err? ==> r.error == IndexError
  {
    if delimiter == "" then Err(ValueError("empty separator"))
    else
      var parts := Split(key, delimiter);
      if |parts| < 2 then Err(IndexError) else Ok(parts[1])
  }

  /** With a one-character delimiter, the port of a composite key is the part after the delimiter. */
  lemma PortIdOfKey(table: string, delimiter: string, port: string)
    requires |delimiter| == 1 && delimiter[0] !in table && delimiter[0] !in port
    ensures PortId(table + delimiter + port, delimiter) == Ok(port)
  {
    var parts := [table, port];
    assert Join(parts, delimiter) == table + delimiter + port by {
      JoinCons(table, [port], delimiter);
    }
    JoinSplit(parts, delimiter);
  }

  /**
   * A Python list display whose elements may raise: the elements are
   * evaluated left to right, so the list is built only when none raises, and
   * otherwise the first element that raises decides the exception.
   */
  function Collect(cells: seq<Result<string, Error>>): (r: Result<seq<string>, Error>)
    ensures r.Ok? <==> forall c :: 0 <= c < |cells| ==> cells[c].Ok?
    ensures r.Ok? ==> |r.value| == |cells| && forall c :: 0 <= c < |cells| ==> cells[c] == Ok(r.value[c])
    ensures r.Err? ==>
      exists c :: 0 <= c < |cells| && cells[c] == Err(r.error) && forall d :: 0 <= d < c ==> cells[d].Ok?
  {
    if |cells| == 0 then Ok([])
    else if cells[0].Err? then Err(cells[0].error)
    else
      match Collect(cells[1..])
      case Err(e) =>
        assert forall d :: 1 <= d < |cells| ==> cells[d] == cells[1..][d - 1];
        Err(e)
      case Ok(rest) => Ok([cells[0].value] + rest)
  }

  /**
   * The ten cells of a state row, before evaluation, in header order: the
   * port, the status, four fields with the missing-value policy and four
   * unit-bearing fields.
   */
  function StateCells(key: string, delimiter: string, record: map<string, string>, floatFmt: string -> Option<string>)
    : (cells: seq<Result<string, Error>>)
    ensures |cells| == |StateHeader| == |StateFields|
    ensures cells[0] == PortId(key, delimiter)
    ensures cells[1] == StatusText(Lookup(record, STATUS))
    ensures forall c :: 2 <= c < 6 ==> cells[c] == Ok(GetValue(Lookup(record, StateFields[c])))
    ensures forall c :: 6 <= c < 10 ==> cells[c] == FormatValue(StateFields[c], Lookup(record, StateFields[c]), floatFmt)
  {
    [PortId(key, delimiter),
     StatusText(Lookup(record, STATUS)),
     Ok(GetValue(Lookup(record, ENABLED))),
     Ok(GetValue(Lookup(record, PRIORITY))),
     Ok(GetValue(Lookup(record, PROTOCOL))),
     Ok(GetValue(Lookup(record, CLASS))),
     FormatValue(PWR_CONSUMP, Lookup(record, PWR_CONSUMP), floatFmt),
     FormatValue(PWR_LIMIT, Lookup(record, PWR_LIMIT), floatFmt),
     FormatValue(VOLTAGE, Lookup(record, VOLTAGE), floatFmt),
     FormatValue(CURRENT, Lookup(record, CURRENT), floatFmt)]
  }

  /**
   * One state row: ten cells, one per header column, or the exception of the
   * first cell (port, status, then the four numbers) that raises.
   */
  function StateRow(key: string, delimiter: string, record: map<string, string>, floatFmt: string -> Option<string>)
    : (r: Result<seq<string>, Error>)
    ensures var cells := StateCells(key, delimiter, record, floatFmt);
      && (r.Ok? <==> forall c :: 0 <= c < |cells| ==> cells[c].Ok?)
      && (r.Ok? ==> |r.value| == |StateHeader| && forall c :: 0 <= c < |cells| ==> cells[c] == Ok(r.value[c]))
      && (r.Err? ==> exists c :: 0 <= c < |cells| && cells[c] == Err(r.error) && forall d :: 0 <= d < c ==> cells[d].Ok?)
  {
    Collect(StateCells(key, delimiter, record, floatFmt))
  }

  /**
   * The exception a failing row raises, cell by cell in evaluation order: a
   * bad key first, then an unknown status, then the first unparsable number.
   */
  lemma StateRowError(key: string, delimiter: string, record: map<string, string>, floatFmt: string -> Option<string>)
    ensures var port := PortId(key, delimiter);
      var status := StatusText(Lookup(record, STATUS));
      var consump := FormatValue(PWR_CONSUMP, Lookup(record, PWR_CONSUMP), floatFmt);
      var limit := FormatValue(PWR_LIMIT, Lookup(record, PWR_LIMIT), floatFmt);
      var voltage := FormatValue(VOLTAGE, Lookup(record, VOLTAGE), floatFmt);
      var current := FormatValue(CURRENT, Lookup(record, CURRENT), floatFmt);
      var r := StateRow(key, delimiter, record, floatFmt);
      && (port.Err? ==> r == Err(port.error))
      && (port.Ok? && status.Err? ==> r == Err(status.error))
      && (port.Ok? && status.Ok? && consump.Err? ==> r == Err(consump.error))
      && (port.Ok? && status.Ok? && consump.Ok? && limit.Err? ==> r == Err(limit.error))
      && (port.Ok? && status.Ok? && consump.Ok? && limit.Ok? && voltage.Err? ==> r == Err(voltage.error))
      && (port.Ok? && status.Ok? && consump.Ok? && limit.Ok? && voltage.Ok? && current.Err? ==> r == Err(current.error))
  {
    var cells := StateCells(key, delimiter, record, floatFmt);
    var r := StateRow(key, delimiter, record, floatFmt);
    assert StateFields[6] == PWR_CONSUMP && StateFields[7] == PWR_LIMIT;
    assert StateFields[8] == VOLTAGE && StateFields[9] == CURRENT;
    if r.Err? {
      var c :| 0 <= c < |cells| && cells[c] == Err(r.error) && forall d :: 0 <= d < c ==> cells[d].Ok?;
    } else {
      assert cells[0].Ok? && cells[1].Ok? && cells[6].Ok? && cells[7].Ok? && cells[8].Ok? && cells[9].Ok?;
    }
  }

  /** A present current of 0.5 is shown with three decimals and its unit. */
  lemma CurrentCell(floatFmt: string -> Option<string>)
    requires floatFmt("0.5") == Some("0.500")
    ensures FormatValue(CURRENT, Some("0.5"), floatFmt) == Ok("0.500 A")
  {
    assert GetValue(Some("0.5")) == "0.5" && Units[CURRENT] == "A";
    assert "0.500" + " " + "A" == "0.500 A";
  }

  /** The record of a delivering port whose consumption is empty and whose current is 0.5. */
  const DeliveringRecord: map<string, string> := map[STATUS := TRUE, CURRENT := "0.5", PWR_CONSUMP := ""]

  lemma DeliveringCells(floatFmt: string -> Option<string>)
    requires floatFmt("0.5") == Some("0.500")
    ensures StatusText(Lookup(DeliveringRecord, STATUS)) == Ok(DELIVERING)
    ensures forall c :: 2 <= c < 6 ==> GetValue(Lookup(DeliveringRecord, StateFields[c])) == NA
    ensures FormatValue(PWR_CONSUMP, Lookup(DeliveringRecord, PWR_CONSUMP), floatFmt) == Ok(NA)
    ensures FormatValue(PWR_LIMIT, Lookup(DeliveringRecord, PWR_LIMIT), floatFmt) == Ok(NA)
    ensures FormatValue(VOLTAGE, Lookup(DeliveringRecord, VOLTAGE), floatFmt) == Ok(NA)
    ensures FormatValue(CURRENT, Lookup(DeliveringRecord, CURRENT), floatFmt) == Ok("0.500 A")
  {
    assert Lookup(DeliveringRecord, CURRENT) == Some("0.5");
    assert GetValue(Some("0.5")) == "0.5" && Units[CURRENT] == "A";
    assert "0.500" + " " + "A" == "0.500 A";
  }

  /** The row expected for `POE_PORT_STATE|Ethernet0` with the delivering record. */
  const DeliveringRow: seq<string> := ["Ethernet0", DELIVERING, NA, NA, NA, NA, NA, NA, NA, "0.500 A"]

  /** The key `POE_PORT_STATE|Ethernet0` names the port `Ethernet0`. */
  lemma EthernetPort()
    ensures PortId("POE_PORT_STATE|Ethernet0", "|") == Ok("Ethernet0")
  {
    assert "POE_PORT_STATE|Ethernet0" == "POE_PORT_STATE" + "|" + "Ethernet0";
    PortIdOfKey("POE_PORT_STATE", "|", "Ethernet0");
  }

  /** Every cell of a row for port Ethernet0 with that record evaluates without an exception to the expected text. */
  lemma DeliveringStateCells(key: string, delimiter: string, floatFmt: string -> Option<string>)
    requires PortId(key, delimiter) == Ok("Ethernet0")
    requires floatFmt("0.5") == Some("0.500")
    ensures var cells := StateCells(key, delimiter, DeliveringRecord, floatFmt);
      forall c :: 0 <= c < 10 ==> cells[c] == Ok(DeliveringRow[c])
  {
    DeliveringCells(floatFmt);
  }

  /**
   * The port of a delivering record whose consumption is empty and whose
   * current is 0.5 (formatted by `float` as "0.500") shows "delivering",
   * "N/A" and "0.500 A".
   */
  lemma StateRowDelivering(floatFmt: string -> Option<string>)
    requires floatFmt("0.5") == Some("0.500")
    ensures StateRow("POE_PORT_STATE|Ethernet0", "|", DeliveringRecord, floatFmt) == Ok(DeliveringRow)
  {
    EthernetPort();
    DeliveringStateCells("POE_PORT_STATE|Ethernet0", "|", floatFmt);
    var r := StateRow("POE_PORT_STATE|Ethernet0", "|", DeliveringRecord, floatFmt);
    assert r.Ok?;
    assert r.value == DeliveringRow;
  }

  /**
   * The body loop of `state`: one row per key, in the order the query
   * returned them; the first row that raises aborts the whole table.
   */
  method StateBody(keys: seq<string>, delimiter: string, getAll: string -> map<string, string>,
                   floatFmt: string -> Option<string>)
    returns (r: Result<seq<seq<string>>, Error>)
    ensures r.Ok? <==> forall i :: 0 <= i < |keys| ==> StateRow(keys[i], delimiter, getAll(keys[i]), floatFmt).Ok?
    ensures r.Ok? ==> |r.value| == |keys|
    ensures r.Ok? ==> forall i :: 0 <= i < |keys| ==> StateRow(keys[i], delimiter, getAll(keys[i]), floatFmt) == Ok(r.value[i])
    ensures r.Err? ==>
      exists i :: 0 <= i < |keys| && StateRow(keys[i], delimiter, getAll(keys[i]), floatFmt) == Err(r.error)
        && forall j :: 0 <= j < i ==> StateRow(keys[j], delimiter, getAll(keys[j]), floatFmt).Ok?
  {
    var body: seq<seq<string>> := [];
    for i := 0 to |keys|
      invariant |body| == i
      invariant forall j :: 0 <= j < i ==> StateRow(keys[j], delimiter, getAll(keys[j]), floatFmt) == Ok(body[j])
    {
      var fvList := getAll(keys[i]);
      var row := StateRow(keys[i], delimiter, fvList, floatFmt);
      if row.Err? {
        FirstFailingKey(keys, i, delimiter, getAll, floatFmt);
        return Err(row.error);
      }
      body := body + [row.value];
    }
    return Ok(body);
  }

  /** A key whose row raises, after keys whose rows do not, is the first failing key. */
  lemma FirstFailingKey(keys: seq<string>, i: nat, delimiter: string, getAll: string -> map<string, string>,
                        floatFmt: string -> Option<string>)
    requires i < |keys| && StateRow(keys[i], delimiter, getAll(keys[i]), floatFmt).Err?
    requires forall j :: 0 <= j < i ==> StateRow(keys[j], delimiter, getAll(keys[j]), floatFmt).Ok?
    ensures !forall j :: 0 <= j < |keys| ==> StateRow(keys[j], delimiter, getAll(keys[j]), floatFmt).Ok?
    ensures var e := StateRow(keys[i], delimiter, getAll(keys[i]), floatFmt).error;
      exists k :: 0 <= k < |keys| && StateRow(keys[k], delimiter, getAll(keys[k]), floatFmt) == Err(e)
        && forall j :: 0 <= j < k ==> StateRow(keys[j], delimiter, getAll(keys[j]), floatFmt).Ok?
  {
  }

  /** The state store: the key query by pattern (`None` for no answer) and the record of a key. */
  datatype StateStore = StateStore(keys: string -> Option<seq<string>>, getAll: string -> map<string, string>)

  /** How `f"{ifname}"` shows the optional argument: a missing one is written `None`. */
  function IfnameText(ifname: Option<string>): (text: string)
    ensures ifname.Some? ==> text == ifname.value
    ensures ifname.None? ==> text == "None"
  {
    match ifname
    case None => "None"
    case Some(name) => name
  }

  /** The key pattern `state` queries: every port, or the one named. */
  function StatePattern(delimiter: string, ifname: Option<string>): (pattern: string)
    ensures StartsWith(pattern, POE_PORT_STATE + delimiter)
    ensures pattern[|POE_PORT_STATE + delimiter|..] == if ifname.None? then "*" else ifname.value
  {
    POE_PORT_STATE + delimiter + (if ifname.None? then "*" else ifname.value)
  }

  /**
   * `state`: validates the interface name before any query, reports a scope
   * without keys as a message, and otherwise builds the ten-column table.
   * `queries` lists the key patterns issued to the store.
   */
  method State(store: StateStore, delimiter: string, ifname: Option<string>, floatFmt: string -> Option<string>)
    returns (out: Result<Report<string>, Error>, queries: seq<string>)
    ensures ifname.Some? && !StartsWith(ifname.value, PORT_STR) ==>
      out == Ok(Message("Invalid ifname argument")) && queries == []
    ensures !(ifname.Some? && !StartsWith(ifname.value, PORT_STR)) ==>
      queries == [StatePattern(delimiter, ifname)]
    ensures queries != [] && (store.keys(queries[0]) == None || store.keys(queries[0]) == Some([])) ==>
      out == Ok(Message("Interface <" + IfnameText(ifname) + "> does not have PoE configuration"))
    ensures queries != [] && store.keys(queries[0]).Some? && store.keys(queries[0]).value != [] ==>
      var keys := store.keys(queries[0]).value;
      && (out.Ok? <==> forall i :: 0 <= i < |keys| ==> StateRow(keys[i], delimiter, store.getAll(keys[i]), floatFmt).Ok?)
      && (out.Ok? ==> out.value.Table?)
    ensures out.Ok? && out.value.Table? ==>
      && queries != [] && store.keys(queries[0]).Some?
      && var keys := store.keys(queries[0]).value;
      && keys != []
      && out.value.header == StateHeader
      && |out.value.body| == |keys|
      && forall i :: 0 <= i < |keys| ==>
           StateRow(keys[i], delimiter, store.getAll(keys[i]), floatFmt) == Ok(out.value.body[i])
    ensures out.Err? ==>
      && queries != [] && store.keys(queries[0]).Some?
      && var keys := store.keys(queries[0]).value;
      && exists i :: 0 <= i < |keys| && StateRow(keys[i], delimiter, store.getAll(keys[i]), floatFmt) == Err(out.error)
           && forall j :: 0 <= j < i ==> StateRow(keys[j], delimiter, store.getAll(keys[j]), floatFmt).Ok?
  {
    if ifname.Some? && !StartsWith(ifname.value, PORT_STR) {
      return Ok(Message("Invalid ifname argument")), [];
    }
    var pattern := StatePattern(delimiter, ifname);
    queries := [pattern];
    var portKeys := store.keys(pattern);
    if portKeys == None || portKeys == Some([]) {
      return Ok(Message("Interface <" + IfnameText(ifname) + "> does not have PoE configuration")), queries;
    }
    var body := StateBody(portKeys.value, delimiter, store.getAll, floatFmt);
    match body
    case Err(e) =>
      out := Err(e);
    case Ok(rows) =>
      out := Ok(Table(StateHeader, rows));
  }
}
