# PoE `show` plugin: formatting and table assembly

A Dafny model of the value-formatting and row-assembly layer of the SONiC
`show poe` CLI plugin (`show/plugins/poe.py`). The plugin reads PoE port
configuration from CONFIG DB and PoE port state from STATE DB. It normalises
missing values to `"N/A"`, adds units to the electrical fields, translates the
port status and assembles the rows of the two `show poe interface` tables. It
also registers the `poe` command group in the root `show` command.

Modules:

- `Wrappers`: `Option`, `Result` (a value or the Python exception raised) and `Outcome`.
- `PyStr`: the Python string operations the plugin relies on. These are
  `startswith`, `str.split(sep)` with an explicit separator and `sep.join`.
  The split/join round trip is proved in both directions.
- `PoeFormat`: `get_value`, `format_value`, the status dictionary,
  `format_attr_value` and `format_group_value`, up to the pair list handed to
  the table renderer.
- `PoeTables`: the rows and tables of `configuration` and `state`. The stores
  are inputs: the configuration table with its natural-sort key order, and the
  state store's key query (pattern to keys) and record lookup (key to
  field/value map). The text a command would print is returned as a `Report`
  (a message, or a header and a body). `State` also returns the key patterns
  it queried.
- `PoeCli`: the root command's `commands` map as a class, with `register`.

Modelling choices:

- A CONFIG DB field value is a string or, for a leaf-list, a list of strings
  (`FieldValue`). A STATE DB record maps strings to strings.
- `f"{float(v):.3f}"` is the parameter `floatFmt: string -> Option<string>`.
  `None` stands for `float` raising `ValueError`.
- Python exceptions are values: `KeyError` (unknown status), `IndexError` (a
  state key without the delimiter) and `ValueError` (an unparsable number, or
  an empty delimiter given to `split`).

Behaviour of the code worth noting:

- A scalar attribute that is present but empty is shown as the empty string,
  not `"N/A"`. So a configuration cell can be blank.
- `state` reports an invalid interface name as a printed message and returns
  normally, without raising.
- When `state` gets no interface name and the query finds no keys, the message
  reads `Interface <None> does not have PoE configuration`. This is how
  `f"{ifname}"` shows `None`.
- `format_group_value` builds `(name + ":", value)` pairs and leaves their
  alignment to the table renderer.
- A configuration key that is a tuple gives a row with one cell per key
  component. Such a row is wider than the four-column header
  (`ConfigRowWidth`).

## Model

| member | source | states |
|---|---|---|
| PyStr.FindFrom | show/plugins/poe.py:226 | the result is the first index at or after `from` where the separator occurs; `None` only when it occurs nowhere after `from` |
| PyStr.StartsWith | show/plugins/poe.py:199 | `startswith` holds exactly when the prefix is no longer than the string and agrees with it at every position of the prefix |
| PyStr.Split | show/plugins/poe.py:226 | `split` gives at least one piece, and at least two exactly when the separator occurs in the string |
| PyStr.Join | show/plugins/poe.py:67 | joining no parts gives the empty string; otherwise the result begins with the first part and ends with the last |
| PyStr.SplitJoin | show/plugins/poe.py:226 | joining the pieces of a split with the same separator gives back the original string |
| PyStr.JoinSplit | show/plugins/poe.py:67 | splitting a join with a one-character separator that no piece contains gives back the pieces |
| PoeFormat.GetValue | show/plugins/poe.py:89-90 | the result is `"N/A"` exactly when the value is absent, empty or already `"N/A"`; any other value is kept unchanged; the result is never empty |
| PoeFormat.GetValueIdempotent | show/plugins/poe.py:89-90 | applying the missing-value policy twice gives the same as applying it once |
| PoeFormat.FormatValue | show/plugins/poe.py:93-104 | keys without a unit get exactly `get_value`; for current, pwr_consump, pwr_limit and voltage the result is `"N/A"` exactly when the value is missing, and otherwise the formatted number followed by " A", " W", " W" or " V"; it fails with ValueError exactly when `float` rejects a present unit-bearing value |
| PoeFormat.StatusText | show/plugins/poe.py:227 | "true" gives "delivering" and "false" gives "searching"; absent, empty or "N/A" gives "N/A"; any other raw status is a KeyError naming it |
| PoeFormat.Items | show/plugins/poe.py:67 | what `join` iterates over is the list's items, or the characters of a string, each as a one-character string |
| PoeFormat.Truthy | show/plugins/poe.py:84 | `entry.get(name)` is truthy exactly when the field is present and its value has at least one item (a non-empty string or list) |
| PoeFormat.FormatAttrValue | show/plugins/poe.py:55-68 | a scalar attribute is its stored value verbatim (empty included), or "N/A" when absent; a present leaf-list attribute is the items of its value (list items, or the characters of a string) joined by newlines, and the empty string when absent |
| PoeFormat.LeafListRoundTrip | show/plugins/poe.py:66-67 | a non-empty leaf list whose items contain no newline splits back, line by line, into the stored list, in order |
| PoeFormat.PresentBelow | show/plugins/poe.py:82-85 | the selected positions increase, each names a present, non-empty attribute, and every present, non-empty attribute is selected |
| PoeFormat.PairsOfPresent | show/plugins/poe.py:82-85 | the pairs the loop appends are, position by position, the (name + ":", formatted value) pairs of the selected attributes |
| PoeFormat.NoneSelected | show/plugins/poe.py:82-85 | nothing is selected exactly when no attribute is present and non-empty |
| PoeFormat.FormatGroupValue | show/plugins/poe.py:71-86 | the pair list has one (name + ":", formatted value) entry per present, non-empty attribute, in the attributes' order; it is empty exactly when no attribute is present |
| PoeTables.KeyParts | show/plugins/poe.py:148-149 | a key that is not a tuple becomes a one-component tuple; a tuple key keeps its components |
| PoeTables.ScalarCells | show/plugins/poe.py:151 | each key component becomes one string cell, in order |
| PoeTables.ConfigRow | show/plugins/poe.py:147-176 | a configuration row is the key's components followed by three cells: the stored enabled, power-limit and priority values, each "N/A" when absent |
| PoeTables.ConfigRowWidth | show/plugins/poe.py:136-151 | a row has as many cells as the four-column header exactly when its key has a single component |
| PoeTables.ConfigRowMissingLimit | show/plugins/poe.py:151-176 | a port with enabled "enable", priority "high" and no power-limit gives the row Ethernet0, enable, N/A, high |
| PoeTables.OrderingLength | show/plugins/poe.py:146 | an ordering that lists every table key exactly once has as many entries as the table has keys |
| PoeTables.Configuration | show/plugins/poe.py:133-180 | the report is always a table with the Port, En/Dis, PWR Limit, Priority header; it has one row per table key, in the given natural-sort order, each row being that key's configuration row |
| PoeTables.PortId | show/plugins/poe.py:226 | the port is the second piece of the key split on the delimiter; IndexError exactly when the key holds no delimiter; ValueError for an empty delimiter |
| PoeTables.PortIdOfKey | show/plugins/poe.py:197-226 | for a one-character delimiter, the port of `<table><delimiter><port>` is `<port>` when neither part contains the delimiter |
| PoeTables.Collect | show/plugins/poe.py:225-236 | a list display of raising elements is built exactly when no element raises, and then holds their values in order; otherwise it raises the exception of the first element that raises |
| PoeTables.StateCells | show/plugins/poe.py:225-236 | the ten cells in header order: the port from the key, the translated status, `get_value` of enabled, priority, protocol and class (these never raise), and the unit-formatted pwr_consump, pwr_limit, voltage and current |
| PoeTables.StateRow | show/plugins/poe.py:225-236 | a state row succeeds exactly when all ten cells do, and is then the ten cell values, one per header column; otherwise it raises the exception of the first failing cell in evaluation order |
| PoeTables.StateRowError | show/plugins/poe.py:225-236 | a failing row raises, in this order of precedence: the key's split error, then the status KeyError, then the ValueError of pwr_consump, pwr_limit, voltage or current, whichever comes first |
| PoeTables.CurrentCell | show/plugins/poe.py:93-104 | a current of 0.5, formatted as 0.500, is shown as "0.500 A" |
| PoeTables.DeliveringCells | show/plugins/poe.py:227-235 | for the record {status: true, current: 0.5, pwr_consump: ""} the status is "delivering", consumption, limit and voltage are "N/A", and current is "0.500 A" |
| PoeTables.EthernetPort | show/plugins/poe.py:226 | the key POE_PORT_STATE, delimiter, Ethernet0 names the port Ethernet0 |
| PoeTables.DeliveringStateCells | show/plugins/poe.py:225-236 | for any key that names Ethernet0 and that record, every one of the ten cells evaluates to its expected text without raising |
| PoeTables.StateRowDelivering | show/plugins/poe.py:223-236 | the key POE_PORT_STATE, delimiter, Ethernet0 with that record gives the row Ethernet0, delivering, N/A (seven times), 0.500 A |
| PoeTables.StateBody | show/plugins/poe.py:221-237 | the body has one row per returned key, in the query's order; it succeeds exactly when every key's row does, and otherwise raises the exception of the first failing key |
| PoeTables.FirstFailingKey | show/plugins/poe.py:221-237 | a key whose row raises, after keys whose rows all succeed, makes the loop as a whole fail, and it fails with that key's exception |
| PoeTables.IfnameText | show/plugins/poe.py:205 | a given interface name is shown as it is; a missing one is shown as `None` |
| PoeTables.StatePattern | show/plugins/poe.py:196-202 | the queried pattern is POE_PORT_STATE and the delimiter followed by `*` without an interface name, or by the name when one is given |
| PoeTables.State | show/plugins/poe.py:190-239 | an interface name without the Ethernet prefix prints "Invalid ifname argument" and issues no query; otherwise exactly one pattern is queried; no keys or a missing answer prints "Interface <name> does not have PoE configuration"; with keys, it prints a table with the 10-column header and one row per key in query order exactly when every row succeeds, and otherwise raises the exception of the first failing key |
| PoeCli.RootCli.AddCommand | show/plugins/poe.py:255 | the command is filed under its own name and nothing else changes; if every command was keyed by its name, that stays so |
| PoeCli.RootCli.Register | show/plugins/poe.py:242-255 | raises "poe already exists in CLI" and leaves the map unchanged when `poe` is registered; otherwise adds only `poe` with its interface/configuration/state subtree |

## Left out

- Command-line framework: the decorators, the AliasedGroup class and `click.echo`. Printed output is returned as a `Report`. The command tree is represented only by the `Command` value that `register` adds.
- Database access: `get_table`, `keys`, `get_all` and `get_db_separator`. These read an external store, so the table, key query, records and delimiter are inputs.
- `tabulate` rendering is an external library. `FormatGroupValue` returns the pair list and the tables return their header and body.
- `natsort.natsorted` is an external library. `Configuration` takes the sorted key order as an input that lists each table key exactly once.
- Floating-point parsing and `:.3f` formatting are represented by the parameter `floatFmt`. Only the "N/A" handling, the unit suffix and the parse failure are modelled.
- The header constants that no command uses carry no behaviour.
- PoeTables.PortIdOfKey: proved only for one-character delimiters. With a longer delimiter, occurrences can overlap across the table/port boundary.
