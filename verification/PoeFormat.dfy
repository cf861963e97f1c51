/**
 * Value formatting of the PoE `show` plugin: the missing-value policy, unit
 * annotation, the status translation, schema-attribute rendering and the
 * selection of the attributes shown in a grouped cell.
 */
module PoeFormat {
  import opened Wrappers
  import opened PyStr

  // Field names of a POE_PORT_STATE record.
  const STATUS := "status"
  const ENABLED := "enabled"
  const PRIORITY := "priority"
  const PROTOCOL := "protocol"
  const CLASS := "class"
  const PWR_CONSUMP := "pwr_consump"
  const PWR_LIMIT := "pwr_limit"
  const VOLTAGE := "voltage"
  const CURRENT := "current"

  const TRUE := "true"
  const FALSE := "false"
  const DELIVERING := "delivering"
  const SEARCHING := "searching"

  /** The sentinel shown for a missing value. */
  const NA := "N/A"

  /** The Python exceptions the formatting can raise. */
  datatype Error =
    | KeyError(key: string)      // a dictionary lookup of an unknown key
    | IndexError                 // a list index past the end
    | ValueError(text: string)   // `float(text)` rejected its input, or `split` got an empty separator

  /** `d.get(key)` on a state record, whose values are strings. */
  function Lookup(record: map<string, string>, key: string): Option<string> {
    if key in record then Some(record[key]) else None
  }

  /** `get_value`: absent or empty becomes "N/A", anything else is kept. */
  function GetValue(value: Option<string>): (r: string)
    ensures r == NA <==> value == None || value == Some("") || value == Some(NA)
    ensures value.Some? && value.value != "" ==> r == value.value
    ensures r != ""
  {
    if value == None || value == Some("") then NA else value.value
  }

  /** The missing-value policy is idempotent. */
  lemma GetValueIdempotent(value: Option<string>)
    ensures GetValue(Some(GetValue(value))) == GetValue(value)
  {
  }

  /** The unit letter of the numeric state fields. */
  const Units: map<string, string> :=
    map[CURRENT := "A", PWR_CONSUMP := "W", PWR_LIMIT := "W", VOLTAGE := "V"]

  /**
   * `format_value`. `floatFmt(v)` stands for `f"{float(v):.3f}"`: `None` when
   * `float` raises, else the number with three decimals.
   */
  function FormatValue(key: string, value: Option<string>, floatFmt: string -> Option<string>): (r: Result<string, Error>)
    // keys without a unit get exactly the missing-value policy
    ensures key !in Units ==> r == Ok(GetValue(value))
    // a unit-bearing field is "N/A" exactly when it is missing, and then has no unit
    ensures key in Units ==> (r == Ok(NA) <==> GetValue(value) == NA)
    // a present unit-bearing field is the formatted number, a space and its unit
    ensures key in Units && GetValue(value) != NA && r.Ok? ==>
      floatFmt(GetValue(value)).Some? &&
      r.value == floatFmt(GetValue(value)).value + " " + Units[key] && EndsWith(r.value, " " + Units[key])
    // the only failure is a value `float` cannot parse
    ensures r.Err? <==> key in Units && GetValue(value) != NA && floatFmt(GetValue(value)).None?
    ensures r.Err? ==> r.error == ValueError(GetValue(value))
  {
    var formatted := GetValue(value);
    if formatted != NA && key in Units then
      match floatFmt(formatted)
      case None => Err(ValueError(formatted))
      case Some(number) =>
        var cell := number + " " + Units[key];
        assert cell[|number|] == ' ' && ' ' !in NA;
        Ok(cell)
    else
      Ok(formatted)
  }

  /** The status dictionary of the state table. */
  const StatusNames: map<string, string> := map[TRUE := DELIVERING, FALSE := SEARCHING, NA := NA]

  /** The status cell: the dictionary lookup of the normalised raw status. */
  function StatusText(raw: Option<string>): (r: Result<string, Error>)
    ensures r.Ok? <==> raw in {None, Some(""), Some(TRUE), Some(FALSE), Some(NA)}
    ensures raw == Some(TRUE) ==> r == Ok(DELIVERING)
    ensures raw == Some(FALSE) ==> r == Ok(SEARCHING)
    ensures r == Ok(NA) <==> raw in {None, Some(""), Some(NA)}
    ensures r.Err? ==> raw.Some? && r.error == KeyError(raw.value)
  {
    var v := GetValue(raw);
    if v in StatusNames then Ok(StatusNames[v]) else Err(KeyError(v))
  }

  /** A CONFIG DB field value: a scalar string or, for a leaf-list, a list of strings. */
  datatype FieldValue = Str(s: string) | Strs(items: seq<string>)

  /** A CONFIG DB entry: field name to value. */
  type Entry = map<string, FieldValue>

  /** The schema metadata of one attribute. */
  datatype Attr = Attr(name: string, description: string, isLeafList: bool, isMandatory: bool, group: string)

  function Get(entry: Entry, name: string): Option<FieldValue> {
    if name in entry then Some(entry[name]) else None
  }

  /** The elements Python iterates over: list items, or the characters of a string. */
  function Items(v: FieldValue): (r: seq<string>)
    ensures v.Strs? ==> r == v.items
    ensures v.Str? ==> |r| == |v.s| && forall i :: 0 <= i < |r| ==> r[i] == [v.s[i]]
  {
    match v
    case Strs(items) => items
    case Str(s) => seq(|s|, i requires 0 <= i < |s| => [s[i]])
  }

  /** `format_attr_value`: the cell of one schema attribute. */
  function FormatAttrValue(entry: Entry, attr: Attr): (r: FieldValue)
    // a scalar field is shown verbatim (even when empty), or "N/A" when absent
    ensures !attr.isLeafList ==> r == (if attr.name in entry then entry[attr.name] else Str(NA))
    // a leaf-list field is always a string; an absent one is empty, not "N/A"
    ensures attr.isLeafList && attr.name !in entry ==> r == Str("")
    // a present leaf-list field joins the list's items, or the characters of a string, by newlines
    ensures attr.isLeafList && attr.name in entry ==> r == Str(Join(Items(entry[attr.name]), "\n"))
  {
    if attr.isLeafList then Str(Join(Items(Get(entry, attr.name).GetOr(Strs([]))), "\n"))
    else Get(entry, attr.name).GetOr(Str(NA))
  }

  /** A leaf-list cell splits back, line by line, into the stored list. */
  lemma LeafListRoundTrip(entry: Entry, attr: Attr, items: seq<string>)
    requires attr.isLeafList && attr.name in entry && entry[attr.name] == Strs(items)
    requires |items| >= 1 && forall i :: 0 <= i < |items| ==> '\n' !in items[i]
    ensures Split(FormatAttrValue(entry, attr).s, "\n") == items
  {
    JoinSplit(items, "\n");
  }

  /** Python truthiness of `entry.get(name)`: present and non-empty. */
  predicate Truthy(v: Option<FieldValue>)
    ensures Truthy(v) <==> v.Some? && |Items(v.value)| > 0
  {
    match v
    case None => false
    case Some(Str(s)) => s != ""
    case Some(Strs(items)) => items != []
  }

  /** One line of a grouped cell: the attribute name with a colon, and its value. */
  function GroupPair(entry: Entry, attr: Attr): (string, FieldValue) {
    (attr.name + ":", FormatAttrValue(entry, attr))
  }

  /** The positions, below `n` and in increasing order, of the attributes present in `entry`. */
  function PresentBelow(entry: Entry, attrs: seq<Attr>, n: nat): (idx: seq<nat>)
    requires n <= |attrs|
    ensures |idx| <= n
    ensures forall j :: 0 <= j < |idx| ==> idx[j] < n && Truthy(Get(entry, attrs[idx[j]].name))
    ensures forall j, k :: 0 <= j < k < |idx| ==> idx[j] < idx[k]
    ensures forall i :: 0 <= i < n && Truthy(Get(entry, attrs[i].name)) ==> i in idx
  {
    if n == 0 then []
    else PresentBelow(entry, attrs, n - 1) + (if Truthy(Get(entry, attrs[n - 1].name)) then [n - 1] else [])
  }

  /** The pairs the loop of `format_group_value` has appended after looking at the first `n` attributes. */
  function PairsBelow(entry: Entry, attrs: seq<Attr>, n: nat): seq<(string, FieldValue)>
    requires n <= |attrs|
  {
    if n == 0 then []
    else PairsBelow(entry, attrs, n - 1) + (if Truthy(Get(entry, attrs[n - 1].name)) then [GroupPair(entry, attrs[n - 1])] else [])
  }

  /** The pairs are those of the present attributes, position by position. */
  lemma {:induction false} PairsOfPresent(entry: Entry, attrs: seq<Attr>, n: nat)
    requires n <= |attrs|
    ensures |PairsBelow(entry, attrs, n)| == |PresentBelow(entry, attrs, n)|
    ensures forall j :: 0 <= j < |PairsBelow(entry, attrs, n)| ==>
      PairsBelow(entry, attrs, n)[j] == GroupPair(entry, attrs[PresentBelow(entry, attrs, n)[j]])
  {
    if n > 0 {
      PairsOfPresent(entry, attrs, n - 1);
    }
  }

  /** No attribute is selected exactly when none of them is present. */
  lemma NoneSelected(entry: Entry, attrs: seq<Attr>)
    ensures PresentBelow(entry, attrs, |attrs|) == [] <==>
      forall i :: 0 <= i < |attrs| ==> !Truthy(Get(entry, attrs[i].name))
  {
    var idx := PresentBelow(entry, attrs, |attrs|);
    if idx != [] {
      assert Truthy(Get(entry, attrs[idx[0]].name));
    }
  }

  /**
   * `format_group_value` up to the table rendering: one pair per present
   * attribute, in the order of `attrs`; absent and empty attributes are left out.
   */
  method FormatGroupValue(entry: Entry, attrs: seq<Attr>) returns (data: seq<(string, FieldValue)>)
    ensures |data| == |PresentBelow(entry, attrs, |attrs|)|
    ensures forall j :: 0 <= j < |data| ==> data[j] == GroupPair(entry, attrs[PresentBelow(entry, attrs, |attrs|)[j]])
    ensures data == [] <==> forall i :: 0 <= i < |attrs| ==> !Truthy(Get(entry, attrs[i].name))
  {
    data := [];
    for i := 0 to |attrs|
      invariant data == PairsBelow(entry, attrs, i)
    {
      if Truthy(Get(entry, attrs[i].name)) {
        data := data + [GroupPair(entry, attrs[i])];
      }
    }
    PairsOfPresent(entry, attrs, |attrs|);
    NoneSelected(entry, attrs);
  }
}
