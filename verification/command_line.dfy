/**
 * `CommandLinePart`: the part of the generated command line the installer
 * collects. It holds three independent tables: options (name to an ordered
 * list of values, names kept in the order they were first set, as a
 * `LinkedHashMap` keeps them), JVM properties and environment variables.
 * Setting an option again replaces its values and keeps its place.
 * `storeOptions` writes the options one line each: the name, then every
 * value in double quotes.
 */
module CommandLine {
  import opened Wrappers

  /** One option: its name and its values, in the order given. */
  type OptionEntry = (string, seq<string>)

  predicate DistinctNames(opts: seq<OptionEntry>) {
    forall i, j :: 0 <= i < j < |opts| ==> opts[i].0 != opts[j].0
  }

  /** The option table: entries in insertion order, no name twice. */
  type Options = opts: seq<OptionEntry> | DistinctNames(opts) witness []

  datatype CommandLinePart = CommandLinePart(
    options: Options,
    properties: map<string, string>,
    environmentVariables: map<string, string>)

  /** `new CommandLinePart()`: all three tables empty. */
  function Empty(): (c: CommandLinePart)
    ensures GetOptions(c) == map[] && GetProperties(c) == map[] && GetEnvironmentVariables(c) == map[]
  {
    CommandLinePart([], map[], map[])
  }

  /** The option names, in order. */
  function Names(opts: seq<OptionEntry>): (r: seq<string>)
    ensures |r| == |opts| && forall i :: 0 <= i < |opts| ==> r[i] == opts[i].0
  {
    seq(|opts|, i requires 0 <= i < |opts| => opts[i].0)
  }

  /** The table as a map, as `getOptions()` returns it. */
  function OptionsMap(opts: Options): map<string, seq<string>> {
    map i | 0 <= i < |opts| :: opts[i].0 := opts[i].1
  }

  /** `getOptions()`: the option table as a map from name to values. */
  function GetOptions(c: CommandLinePart): map<string, seq<string>> {
    OptionsMap(c.options)
  }

  /** Every option in the table is in the map with its own values, and nothing else is. */
  lemma GetOptionsContents(c: CommandLinePart)
    ensures forall i :: 0 <= i < |c.options| ==>
      c.options[i].0 in GetOptions(c) && GetOptions(c)[c.options[i].0] == c.options[i].1
    ensures forall k :: k in GetOptions(c) <==> k in Names(c.options)
  {
    var r := GetOptions(c);
    forall i | 0 <= i < |c.options|
      ensures c.options[i].0 in r && r[c.options[i].0] == c.options[i].1
    {
      OptionsMapAt(c.options, i);
    }
    forall k | k in r
      ensures k in Names(c.options)
    {
      var i :| 0 <= i < |c.options| && c.options[i].0 == k;
      assert Names(c.options)[i] == k;
    }
    forall k | k in Names(c.options)
      ensures k in r
    {
      var i :| 0 <= i < |c.options| && Names(c.options)[i] == k;
      OptionsMapAt(c.options, i);
    }
  }

  /** `getProperties()`: the JVM property table. */
  function GetProperties(c: CommandLinePart): map<string, string> {
    c.properties
  }

  /** `getEnvironmentVariables()`: the environment variable table. */
  function GetEnvironmentVariables(c: CommandLinePart): map<string, string> {
    c.environmentVariables
  }

  /** The position of `name` in the table, or the table's length when it is not there. */
  function Position(opts: seq<OptionEntry>, name: string): (i: nat)
    ensures i <= |opts|
    ensures i < |opts| ==> opts[i].0 == name
    ensures forall j :: 0 <= j < i ==> opts[j].0 != name
  {
    if |opts| == 0 then 0
    else if opts[|opts| - 1].0 != name && Position(opts[..|opts| - 1], name) == |opts| - 1 then |opts|
    else Position(opts[..|opts| - 1], name)
  }

  /**
   * `LinkedHashMap.put`: an existing name keeps its place and gets the new
   * values; a new name goes to the end.
   */
  function Put(opts: Options, name: string, values: seq<string>): (r: Options)
    ensures OptionsMap(r) == OptionsMap(opts)[name := values]
    ensures name in Names(opts) ==> Names(r) == Names(opts)
    ensures name !in Names(opts) ==> r == opts + [(name, values)]
  {
    var i := Position(opts, name);
    if i < |opts| then
      ReplaceMap(opts, i, values);
      opts[i := (name, values)]
    else
      AppendMap(opts, name, values);
      opts + [(name, values)]
  }

  /** Each entry of the table is found in the map under its own name. */
  lemma OptionsMapAt(opts: Options, i: nat)
    requires i < |opts|
    ensures opts[i].0 in OptionsMap(opts) && OptionsMap(opts)[opts[i].0] == opts[i].1
  {
  }

  /** Overwriting the values at an existing name's position updates exactly that name's entry. */
  lemma ReplaceMap(opts: Options, i: nat, values: seq<string>)
    requires i < |opts|
    ensures DistinctNames(opts[i := (opts[i].0, values)])
    ensures OptionsMap(opts[i := (opts[i].0, values)]) == OptionsMap(opts)[opts[i].0 := values]
    ensures Names(opts[i := (opts[i].0, values)]) == Names(opts)
  {
    var r: Options := opts[i := (opts[i].0, values)];
    assert Names(r) == Names(opts);
    var m, m' := OptionsMap(opts), OptionsMap(r);
    assert m'.Keys == m.Keys by {
      forall k | k in m'
        ensures k in m
      {
        var j :| 0 <= j < |r| && r[j].0 == k;
        assert opts[j].0 == k;
      }
      forall k | k in m
        ensures k in m'
      {
        var j :| 0 <= j < |opts| && opts[j].0 == k;
        assert r[j].0 == k;
      }
    }
  }

  lemma AppendKeys(opts: Options, name: string, values: seq<string>)
    requires name !in Names(opts)
    ensures DistinctNames(opts + [(name, values)])
    ensures OptionsMap(opts + [(name, values)]).Keys == OptionsMap(opts).Keys + {name}
  {
    var r: Options := opts + [(name, values)];
    var m, m' := OptionsMap(opts), OptionsMap(r);
    forall k | k in m'
      ensures k in m.Keys + {name}
    {
      var j :| 0 <= j < |r| && r[j].0 == k;
      if j < |opts| {
        assert k in m;
      }
    }
    forall k | k in m
      ensures k in m'
    {
      var j :| 0 <= j < |opts| && opts[j].0 == k;
      assert r[j].0 == k;
    }
    assert r[|opts|].0 == name;
  }

  /** Adding a new name at the end adds exactly that name's entry. */
  lemma AppendMap(opts: Options, name: string, values: seq<string>)
    requires name !in Names(opts)
    ensures DistinctNames(opts + [(name, values)])
    ensures OptionsMap(opts + [(name, values)]) == OptionsMap(opts)[name := values]
    ensures Names(opts + [(name, values)]) == Names(opts) + [name]
  {
    var r: Options := opts + [(name, values)];
    assert Names(r) == Names(opts) + [name];
    var m, m' := OptionsMap(opts), OptionsMap(r);
    AppendKeys(opts, name, values);
    forall k | k in m && k != name
      ensures m'[k] == m[k]
    {
      var j :| 0 <= j < |opts| && opts[j].0 == k;
      assert r[j] == opts[j];
    }
    assert m'[name] == values by {
      assert r[|opts|] == (name, values);
    }
  }

  /** `setOption(name, values...)`: the option now has exactly these values; nothing else changes. */
  function SetOption(c: CommandLinePart, name: string, values: seq<string>): (r: CommandLinePart)
    ensures GetOptions(r) == GetOptions(c)[name := values]
    ensures GetProperties(r) == GetProperties(c)
    ensures GetEnvironmentVariables(r) == GetEnvironmentVariables(c)
  {
    c.(options := Put(c.options, name, values))
  }

  /** `setProperty(key, value)`: one JVM property set; nothing else changes. */
  function SetProperty(c: CommandLinePart, key: string, value: string): (r: CommandLinePart)
    ensures key in GetProperties(r) && GetProperties(r)[key] == value
    ensures forall k :: k != key ==> (k in GetProperties(r) <==> k in GetProperties(c))
    ensures forall k :: k != key && k in GetProperties(c) ==> GetProperties(r)[k] == GetProperties(c)[k]
    ensures GetOptions(r) == GetOptions(c)
    ensures GetEnvironmentVariables(r) == GetEnvironmentVariables(c)
  {
    c.(properties := c.properties[key := value])
  }

  /** `setEnvironmentVariable(key, value)`: one variable set; nothing else changes. */
  function SetEnvironmentVariable(c: CommandLinePart, key: string, value: string): (r: CommandLinePart)
    ensures key in GetEnvironmentVariables(r) && GetEnvironmentVariables(r)[key] == value
    ensures forall k :: k != key ==> (k in GetEnvironmentVariables(r) <==> k in GetEnvironmentVariables(c))
    ensures forall k :: k != key && k in GetEnvironmentVariables(c) ==> GetEnvironmentVariables(r)[k] == GetEnvironmentVariables(c)[k]
    ensures GetOptions(r) == GetOptions(c)
    ensures GetProperties(r) == GetProperties(c)
  {
    c.(environmentVariables := c.environmentVariables[key := value])
  }

  /** A value as `storeOptions` writes it: wrapped in double quotes. */
  function Quote(v: string): string {
    "\"" + v + "\""
  }

  function QuoteAll(values: seq<string>): (r: seq<string>)
    ensures |r| == |values| && forall i :: 0 <= i < |values| ==> r[i] == Quote(values[i])
  {
    seq(|values|, i requires 0 <= i < |values| => Quote(values[i]))
  }

  /** The lines for a table: for each option in order, its name, then its quoted values. */
  function Lines(opts: seq<OptionEntry>): seq<string> {
    if |opts| == 0 then [] else [opts[0].0] + QuoteAll(opts[0].1) + Lines(opts[1..])
  }

  /** `storeOptions(file)`: the lines written to the file. */
  function StoreOptions(c: CommandLinePart): seq<string> {
    Lines(c.options)
  }

  /** The written lines: one per option and value, and they read back as the table. */
  lemma StoreOptionsWritten(c: CommandLinePart)
    ensures |StoreOptions(c)| == LineCount(c.options)
    ensures PlainNames(c.options) ==> ParseLines(StoreOptions(c)) == Some(c.options)
  {
    StoreOptionsLineCount(c.options);
    if PlainNames(c.options) {
      StoreOptionsRoundTrip(c.options);
    }
  }

  /** The number of lines an option table takes: one per name and one per value. */
  function LineCount(opts: seq<OptionEntry>): nat {
    if |opts| == 0 then 0 else 1 + |opts[0].1| + LineCount(opts[1..])
  }

  /** A line that `storeOptions` could have written for a value. */
  predicate IsQuoted(line: string) {
    |line| >= 2 && line[0] == '"' && line[|line| - 1] == '"'
  }

  function Unquote(line: string): string
    requires IsQuoted(line)
  {
    line[1..|line| - 1]
  }

  function UnquoteAll(lines: seq<string>): (r: seq<string>)
    requires forall i :: 0 <= i < |lines| ==> IsQuoted(lines[i])
    ensures |r| == |lines| && forall i :: 0 <= i < |lines| ==> r[i] == Unquote(lines[i])
  {
    seq(|lines|, i requires 0 <= i < |lines| => Unquote(lines[i]))
  }

  /** How many quoted lines open `lines`. */
  function QuotedRun(lines: seq<string>): (k: nat)
    ensures k <= |lines|
    ensures forall i :: 0 <= i < k ==> IsQuoted(lines[i])
    ensures k < |lines| ==> !IsQuoted(lines[k])
  {
    if |lines| == 0 || !IsQuoted(lines[0]) then 0 else 1 + QuotedRun(lines[1..])
  }

  /**
   * Reading an options file back: each unquoted line names an option and
   * the quoted lines after it are its values. `None` when the file starts
   * with a value.
   */
  function ParseLines(lines: seq<string>): Option<seq<OptionEntry>>
    decreases |lines|
  {
    if |lines| == 0 then Some([])
    else if IsQuoted(lines[0]) then None
    else
      var k := QuotedRun(lines[1..]);
      var values := UnquoteAll(lines[1..1 + k]);
      match ParseLines(lines[1 + k..])
      case None => None
      case Some(rest) => Some([(lines[0], values)] + rest)
  }

  /** Every option name could not be mistaken for a quoted value. */
  predicate PlainNames(opts: seq<OptionEntry>) {
    forall i :: 0 <= i < |opts| ==> !IsQuoted(opts[i].0)
  }

  /** `storeOptions` writes one line per name and one per value. */
  lemma {:induction false} StoreOptionsLineCount(opts: seq<OptionEntry>)
    ensures |Lines(opts)| == LineCount(opts)
    decreases |opts|
  {
    if |opts| > 0 {
      StoreOptionsLineCount(opts[1..]);
    }
  }

  /** Options are written in table order: appending an option appends its name and quoted values. */
  lemma {:induction false} LinesAppend(opts: seq<OptionEntry>, name: string, values: seq<string>)
    ensures Lines(opts + [(name, values)]) == Lines(opts) + [name] + QuoteAll(values)
    decreases |opts|
  {
    if |opts| == 0 {
      assert [(name, values)][1..] == [];
    } else {
      assert (opts + [(name, values)])[1..] == opts[1..] + [(name, values)];
      LinesAppend(opts[1..], name, values);
    }
  }

  /** Quoted values read back as themselves. */
  lemma UnquoteQuote(v: string)
    ensures IsQuoted(Quote(v)) && Unquote(Quote(v)) == v
  {
  }

  /** The values of one option are exactly the quoted run after its name. */
  lemma {:induction false} QuotedRunOfValues(values: seq<string>, rest: seq<string>)
    requires |rest| > 0 ==> !IsQuoted(rest[0])
    ensures QuotedRun(QuoteAll(values) + rest) == |values|
    decreases |values|
  {
    if |values| > 0 {
      assert (QuoteAll(values) + rest)[1..] == QuoteAll(values[1..]) + rest;
      QuotedRunOfValues(values[1..], rest);
    } else {
      assert QuoteAll(values) + rest == rest;
    }
  }

  /** Quoting values and unquoting them again changes nothing. */
  lemma UnquoteAllQuoteAll(values: seq<string>)
    ensures UnquoteAll(QuoteAll(values)) == values
  {
    forall i | 0 <= i < |values|
      ensures UnquoteAll(QuoteAll(values))[i] == values[i]
    {
      UnquoteQuote(values[i]);
    }
  }

  /** Reading one option's lines: its name, then exactly its values, then whatever follows. */
  lemma ParseOneOption(name: string, values: seq<string>, rest: seq<string>)
    requires !IsQuoted(name)
    requires |rest| > 0 ==> !IsQuoted(rest[0])
    ensures ParseLines([name] + QuoteAll(values) + rest) ==
      if ParseLines(rest).Some? then Some([(name, values)] + ParseLines(rest).value) else None
  {
    var lines := [name] + QuoteAll(values) + rest;
    OptionLinesShape(name, QuoteAll(values), rest);
    QuotedRunOfValues(values, rest);
    ParseHead(lines, values);
  }

  /** Where the parts of one option's lines sit. */
  lemma OptionLinesShape(name: string, quoted: seq<string>, rest: seq<string>)
    ensures ([name] + quoted + rest)[0] == name
    ensures ([name] + quoted + rest)[1..] == quoted + rest
    ensures ([name] + quoted + rest)[1..1 + |quoted|] == quoted
    ensures ([name] + quoted + rest)[1 + |quoted|..] == rest
  {
  }

  /** `ParseLines` on a name line followed by the quoted run of `values`. */
  lemma ParseHead(lines: seq<string>, values: seq<string>)
    requires |lines| > |values| && !IsQuoted(lines[0])
    requires QuotedRun(lines[1..]) == |values|
    requires lines[1..1 + |values|] == QuoteAll(values)
    ensures ParseLines(lines) ==
      if ParseLines(lines[1 + |values|..]).Some?
      then Some([(lines[0], values)] + ParseLines(lines[1 + |values|..]).value)
      else None
  {
    UnquoteAllQuoteAll(values);
  }

  /** The options file reads back as the table it was written from, when no name looks like a quoted value. */
  lemma {:induction false} StoreOptionsRoundTrip(opts: seq<OptionEntry>)
    requires PlainNames(opts)
    ensures ParseLines(Lines(opts)) == Some(opts)
    decreases |opts|
  {
    if |opts| > 0 {
      var rest := Lines(opts[1..]);
      assert Lines(opts) == [opts[0].0] + QuoteAll(opts[0].1) + rest;
      assert |opts[1..]| > 0 ==> rest[0] == opts[1..][0].0;
      StoreOptionsRoundTrip(opts[1..]);
      ParseOneOption(opts[0].0, opts[0].1, rest);
      assert [(opts[0].0, opts[0].1)] + opts[1..] == opts;
    }
  }

  /** Re-setting an option replaces its values, does not add to them, and keeps its place. */
  lemma SetOptionReplaces(c: CommandLinePart, name: string, first: seq<string>, second: seq<string>)
    ensures GetOptions(SetOption(SetOption(c, name, first), name, second))[name] == second
    ensures Names(SetOption(SetOption(c, name, first), name, second).options) == Names(SetOption(c, name, first).options)
  {
    var c1 := SetOption(c, name, first);
    assert name in Names(c1.options) by {
      var i :| 0 <= i < |c1.options| && c1.options[i].0 == name;
      assert Names(c1.options)[i] == name;
    }
  }

  /** Nothing set means nothing found, in each of the three tables. */
  lemma EmptyHasNothing(name: string)
    ensures name !in GetOptions(Empty())
    ensures name !in GetProperties(Empty())
    ensures name !in GetEnvironmentVariables(Empty())
  {
  }

  /** The options written for the installer's example: names bare, values quoted, in the order set. */
  lemma StoreOptionsExample()
    ensures StoreOptions(SetOption(SetOption(SetOption(Empty(), "-noarg", []), "-onearg", ["a1"]), "-twoarg", ["a2", "a3"]))
      == ["-noarg", "-onearg", "\"a1\"", "-twoarg", "\"a2\"", "\"a3\""]
  {
    var c1 := SetOption(Empty(), "-noarg", []);
    AppendMap([], "-noarg", []);
    var c2 := SetOption(c1, "-onearg", ["a1"]);
    assert "-onearg" !in Names(c1.options);
    AppendMap(c1.options, "-onearg", ["a1"]);
    var c3 := SetOption(c2, "-twoarg", ["a2", "a3"]);
    assert "-twoarg" !in Names(c2.options);
    AppendMap(c2.options, "-twoarg", ["a2", "a3"]);
    assert QuoteAll([]) == [];
    assert Quote("a1") == "\"a1\"" && Quote("a2") == "\"a2\"" && Quote("a3") == "\"a3\"";
    assert QuoteAll(["a1"]) == ["\"a1\""];
    assert QuoteAll(["a2", "a3"]) == ["\"a2\"", "\"a3\""];
    LinesAppend([], "-noarg", []);
    LinesAppend(c1.options, "-onearg", ["a1"]);
    LinesAppend(c2.options, "-twoarg", ["a2", "a3"]);
  }

  /**
   * Options set through the builder read back as set; an option set twice
   * has only its second values; a name never set is absent; properties and
   * environment variables stay empty.
   */
  lemma OptionsScenario(first: string, second: string, third: string, v1: string, v2: string, other: string)
    requires first != second && second != third && first != third
    requires other != first && other != second && other != third
    ensures var c := SetOption(SetOption(SetOption(SetOption(Empty(), first, []), second, [v1]), third, [v1, v2]), second, [v2, v1]);
      && other !in GetOptions(c)
      && GetOptions(c)[first] == [] && GetOptions(c)[second] == [v2, v1] && GetOptions(c)[third] == [v1, v2]
      && GetProperties(c) == map[] && GetEnvironmentVariables(c) == map[]
  {
    var c1 := SetOption(Empty(), first, []);
    var c2 := SetOption(c1, second, [v1]);
    var c3 := SetOption(c2, third, [v1, v2]);
    SetTwiceKeepsLast(c3, c2, c1, first, second, third, v1, v2, other);
  }

  /** The last step of `OptionsScenario`: re-setting `second` on the three-option table. */
  lemma SetTwiceKeepsLast(c3: CommandLinePart, c2: CommandLinePart, c1: CommandLinePart,
                          first: string, second: string, third: string, v1: string, v2: string, other: string)
    requires first != second && second != third && first != third
    requires other != first && other != second && other != third
    requires GetOptions(c1) == map[first := []] && GetProperties(c1) == map[] && GetEnvironmentVariables(c1) == map[]
    requires GetOptions(c2) == GetOptions(c1)[second := [v1]] && GetProperties(c2) == map[] && GetEnvironmentVariables(c2) == map[]
    requires GetOptions(c3) == GetOptions(c2)[third := [v1, v2]] && GetProperties(c3) == map[] && GetEnvironmentVariables(c3) == map[]
    ensures var c := SetOption(c3, second, [v2, v1]);
      && other !in GetOptions(c)
      && GetOptions(c)[first] == [] && GetOptions(c)[second] == [v2, v1] && GetOptions(c)[third] == [v1, v2]
      && GetProperties(c) == map[] && GetEnvironmentVariables(c) == map[]
  {
    var m := GetOptions(c3);
    assert m == map[first := [], second := [v1], third := [v1, v2]];
    var c := SetOption(c3, second, [v2, v1]);
    assert GetOptions(c) == m[second := [v2, v1]];
  }

  /** A property or environment variable set on a fresh builder reads back; nothing else is set. */
  lemma PropertyAndVariableScenario(key: string, value: string, other: string)
    requires other != key
    ensures var c := SetProperty(Empty(), key, value);
      && other !in GetProperties(c) && GetProperties(c)[key] == value
      && GetOptions(c) == map[] && GetEnvironmentVariables(c) == map[]
    ensures var c := SetEnvironmentVariable(Empty(), key, value);
      && other !in GetEnvironmentVariables(c) && GetEnvironmentVariables(c)[key] == value
      && GetOptions(c) == map[] && GetProperties(c) == map[]
  {
  }
}
