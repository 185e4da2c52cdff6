/** The agent manifest text: parseSimpleToml, loadAgentManifest, saveAgentManifest (packages/agent-manifest/index.ts). */
module AgentManifest {
  import opened Decimal
  import opened Options
  import opened Text

  /**
   * A value. A Float keeps its digits; the source turns them into a number. An Odd number is one that JavaScript prints
   * otherwise, and that no text parses to.
   */
  datatype Value =
    | Str(text: string)
    | Num(n: nat)
    | Float(digits: string)
    | Odd(text: string)
    | Bool(b: bool)
    | List(items: seq<string>)
    | Table(entries: map<string, Value>)

  type Fields = map<string, Value>

  /** A top-level entry of the parse result: a value met before any section, or a section. */
  datatype Entry = Leaf(value: Value) | Section(fields: Fields)

  /** `current` names the section that `currentSection` points to; None is the top level. */
  datatype Parser = Parser(result: map<string, Entry>, current: Option<string>)

  // ---- Reading ----

  predicate IsWord(c: char) {
    'a' <= c <= 'z' || 'A' <= c <= 'Z' || '0' <= c <= '9' || c == '_'
  }

  predicate AllWord(s: string) {
    forall k :: 0 <= k < |s| ==> IsWord(s[k])
  }

  /** The length of the longest prefix `\w*` matches. */
  function WordPrefix(s: string): (n: nat)
    ensures n <= |s|
  {
    if s == "" || !IsWord(s[0]) then 0 else 1 + WordPrefix(s[1..])
  }

  datatype KeyValue = KeyValue(key: string, raw: string)

  /** `^(\w+)\s*=\s*(.+)$` on a trimmed line, the value trimmed. */
  function MatchKeyValue(t: string): Option<KeyValue> {
    var n := WordPrefix(t);
    var rest := TrimStart(t[n..]);
    if n == 0 || rest == "" || rest[0] != '=' then None
    else
      var value := TrimStart(rest[1..]);
      if value == "" || !OneLine(value) then None
      else Some(KeyValue(t[..n], Trim(value)))
  }

  /** `^\[([^\]]+)\]$` on a trimmed line. */
  function MatchSection(t: string): Option<string> {
    if |t| >= 3 && Enclosed(t, '[', ']') && Lacks(Inner(t), ']') then Some(Inner(t)) else None
  }

  function DigitPrefix(s: string): (n: nat)
    ensures n <= |s|
  {
    if s == "" || !IsDigit(s[0]) then 0 else 1 + DigitPrefix(s[1..])
  }

  /** `^\d+\.\d+$` */
  predicate IsFloat(s: string) {
    var n := DigitPrefix(s);
    0 < n && n + 1 < |s| && s[n] == '.' && AllDigits(s[n + 1..])
  }

  function Items(parts: seq<string>): seq<string> {
    if parts == [] then [] else [Unquote(Trim(parts[0]))] + Items(parts[1..])
  }

  function TableValue(raw: string): Value {
    if Enclosed(raw, '"', '"') then Str(Inner(raw))
    else if raw == "true" then Bool(true)
    else if raw == "false" then Bool(false)
    else if raw != "" && AllDigits(raw) then Num(Read(raw))
    else Str(raw)
  }

  /** The entries of an inline table, from the comma-separated parts of its inside. */
  function TableEntries(parts: seq<string>): map<string, Value> {
    if parts == [] then map[]
    else
      var before, part := TableEntries(parts[..|parts| - 1]), Trim(parts[|parts| - 1]);
      if part == "" then before
      else match MatchKeyValue(part)
        case Some(kv) => before[kv.key := TableValue(kv.raw)]
        case None => before
  }

  function ParseValue(raw: string): Value {
    if raw == "true" then Bool(true)
    else if raw == "false" then Bool(false)
    else if raw != "" && AllDigits(raw) then Num(Read(raw))
    else if IsFloat(raw) then Float(raw)
    else if Enclosed(raw, '"', '"') then Str(Inner(raw))
    else if Enclosed(raw, '[', ']') then List(Items(Split(Inner(raw), ',')))
    else if Enclosed(raw, '{', '}') then Table(TableEntries(Split(Trim(Inner(raw)), ',')))
    else Str(raw)
  }

  /** `currentSection[key] = value` */
  function Put(p: Parser, key: string, value: Value): Parser {
    match p.current
    case None => p.(result := p.result[key := Leaf(value)])
    case Some(name) =>
      var fields := if name in p.result && p.result[name].Section? then p.result[name].fields else map[];
      p.(result := p.result[name := Section(fields[key := value])])
  }

  function ParseTrimmed(p: Parser, t: string): Parser {
    if t == "" || t[0] == '#' then p
    else match MatchSection(t)
      case Some(name) => Parser(p.result[name := Section(map[])], Some(name))
      case None =>
        match MatchKeyValue(t)
        case Some(kv) => Put(p, kv.key, ParseValue(kv.raw))
        case None => p
  }

  function ParseLine(p: Parser, line: string): Parser {
    ParseTrimmed(p, Trim(line))
  }

  function ParseLines(p: Parser, lines: seq<string>): Parser
    decreases |lines|
  {
    if lines == [] then p else ParseLines(ParseLine(p, lines[0]), lines[1..])
  }

  function Parse(content: string): map<string, Entry> {
    ParseLines(Parser(map[], None), Split(content, '\n')).result
  }

  method ParseSimpleToml(content: string) returns (result: map<string, Entry>)
    ensures result == Parse(content)
  {
    result := map[];
    var current: Option<string> := None;
    var lines := Split(content, '\n');
    for i := 0 to |lines|
      invariant ParseLines(Parser(result, current), lines[i..]).result == Parse(content)
    {
      assert lines[i..][1..] == lines[i + 1..];
      var trimmed := Trim(lines[i]);
      if trimmed == "" || trimmed[0] == '#' {
        continue;
      }
      var section := MatchSection(trimmed);
      if section.Some? {
        result := result[section.value := Section(map[])];
        current := section;
        continue;
      }
      var kv := MatchKeyValue(trimmed);
      if kv.Some? {
        result := Put(Parser(result, current), kv.value.key, ParseValue(kv.value.raw)).result;
      }
    }
  }

  // ---- The manifest ----

  datatype Times = Times(start: string, end: string, timezone: string)

  /** A number by what JavaScript prints of it: digits, digits with a point, or with a sign, an exponent or a word. */
  datatype Number = Whole(n: nat) | Fraction(digits: string) | Other(text: string)

  predicate IsNumber(n: Number) {
    match n
    case Whole(k) => k < 1_000_000_000_000_000_000_000
    case Fraction(digits) => IsFloat(digits) && exists k :: 0 <= k < |digits| && '1' <= digits[k] <= '9'
    case Other(text) =>
      && text != "" && (forall k :: 0 <= k < |text| ==> IsWord(text[k]) || text[k] == '-' || text[k] == '+' || text[k] == '.')
      && !AllDigits(text) && !IsFloat(text) && text != "true" && text != "false"
  }

  type JsNumber = n: Number | IsNumber(n) witness Whole(0)

  function NumberText(n: JsNumber): string {
    match n
    case Whole(k) => Print(k)
    case Fraction(digits) => digits
    case Other(text) => text
  }

  function NumberValue(n: JsNumber): Value {
    match n
    case Whole(k) => Num(k)
    case Fraction(digits) => Float(digits)
    case Other(text) => Odd(text)
  }

  datatype Manifest = Manifest(
    name: string, version: string, description: string,
    identityId: JsNumber, walletAddress: string,
    organizationId: string, role: string,
    capabilities: seq<string>,
    maxValuePerTx: string, maxDailyValue: string, allowedTargets: seq<string>, allowedTimes: Option<Times>,
    preferLightweight: bool, maxSessions: JsNumber, defaultExpiryHours: JsNumber,
    plugins: seq<string>,
    restartOnCrash: bool, maxRetries: JsNumber, logLevel: string)

  /** What loading yields, before its unchecked casts: None is undefined. */
  datatype LoadedTimes = LoadedTimes(start: Option<Value>, end: Option<Value>, timezone: Value)

  datatype Loaded = Loaded(
    name: Value, version: Value, description: Value,
    identityId: Value, walletAddress: Value,
    organizationId: Value, role: Value,
    capabilities: Value,
    maxValuePerTx: Value, maxDailyValue: Value, allowedTargets: Value, allowedTimes: Option<LoadedTimes>,
    preferLightweight: Value, maxSessions: Value, defaultExpiryHours: Value,
    plugins: Value,
    restartOnCrash: Value, maxRetries: Value, logLevel: Value)

  function AsLoaded(m: Manifest): Loaded {
    Loaded(
      Str(m.name), Str(m.version), Str(m.description),
      NumberValue(m.identityId), Str(m.walletAddress),
      Str(m.organizationId), Str(m.role),
      List(m.capabilities),
      Str(m.maxValuePerTx), Str(m.maxDailyValue), List(m.allowedTargets),
      match m.allowedTimes
      case None => None
      case Some(t) => Some(LoadedTimes(Some(Str(t.start)), Some(Str(t.end)), Str(t.timezone))),
      Bool(m.preferLightweight), NumberValue(m.maxSessions), NumberValue(m.defaultExpiryHours),
      List(m.plugins),
      Bool(m.restartOnCrash), NumberValue(m.maxRetries), Str(m.logLevel))
  }

  /** The properties of a parsed entry; one that has none of ours reads as undefined everywhere. */
  function FieldsOf(result: map<string, Entry>, section: string): Fields {
    if section !in result then map[]
    else match result[section]
      case Section(fields) => fields
      case Leaf(Table(entries)) => entries
      case Leaf(_) => map[]
  }

  function Get(fields: Fields, key: string): Option<Value> {
    if key in fields then Some(fields[key]) else None
  }

  predicate Falsy(v: Value) {
    match v
    case Str(text) => text == ""
    case Num(n) => n == 0
    case Odd(text) => text == "NaN"
    case Float(digits) => forall k :: 0 <= k < |digits| ==> digits[k] == '0' || digits[k] == '.'
    case Bool(b) => !b
    case List(_) => false
    case Table(_) => false
  }

  /** `v || default` */
  function Or(v: Option<Value>, default: Value): Value {
    if v.Some? && !Falsy(v.value) then v.value else default
  }

  /** `v ?? default` */
  function Coalesce(v: Option<Value>, default: Value): Value {
    if v.Some? then v.value else default
  }

  function LoadTimes(v: Option<Value>): Option<LoadedTimes> {
    if v.None? || Falsy(v.value) then None
    else
      var entries := if v.value.Table? then v.value.entries else map[];
      Some(LoadedTimes(Get(entries, "start"), Get(entries, "end"), Or(Get(entries, "timezone"), Str("UTC"))))
  }

  function LoadFrom(agentName: string, parsed: map<string, Entry>): Loaded {
    var agent, identity, org := FieldsOf(parsed, "agent"), FieldsOf(parsed, "identity"), FieldsOf(parsed, "organization");
    var permissions, sessions := FieldsOf(parsed, "permissions"), FieldsOf(parsed, "sessions");
    var runtime := FieldsOf(parsed, "runtime");
    Loaded(
      Or(Get(agent, "name"), Str(agentName)),
      Or(Get(agent, "version"), Str("1.0.0")),
      Or(Get(agent, "description"), Str("")),
      Or(Get(identity, "identity_id"), Num(0)),
      Or(Get(identity, "wallet_address"), Str("")),
      Or(Get(org, "id"), Str("")),
      Or(Get(org, "role"), Str("member")),
      Or(Get(FieldsOf(parsed, "capabilities"), "required"), List([])),
      Or(Get(permissions, "max_value_per_tx"), Str("1000000000000000000")),
      Or(Get(permissions, "max_daily_value"), Str("10000000000000000000")),
      Or(Get(permissions, "allowed_targets"), List([])),
      LoadTimes(Get(permissions, "allowed_times")),
      Coalesce(Get(sessions, "prefer_lightweight"), Bool(true)),
      Or(Get(sessions, "max_sessions"), Num(5)),
      Or(Get(sessions, "default_expiry_hours"), Num(24)),
      Or(Get(FieldsOf(parsed, "plugins"), "enabled"), List([])),
      Coalesce(Get(runtime, "restart_on_crash"), Bool(true)),
      Or(Get(runtime, "max_retries"), Num(3)),
      Or(Get(runtime, "log_level"), Str("info")))
  }

  /** `loadAgentManifest` on the text of an existing file. */
  function Load(agentName: string, content: string): Loaded {
    LoadFrom(agentName, Parse(content))
  }

  // ---- Writing ----

  /** A `key = text` line, and a section with its lines and the blank line after it. */
  datatype Item = Item(key: string, text: string)
  datatype Block = Block(name: string, items: seq<Item>)

  function Quoted(items: seq<string>): (r: seq<string>)
    ensures |r| == |items|
    ensures forall i :: 0 <= i < |items| ==> r[i] == Quote(items[i])
  {
    if items == [] then [] else [Quote(items[0])] + Quoted(items[1..])
  }

  function ListText(items: seq<string>): string {
    "[" + Join(Quoted(items), ", ") + "]"
  }

  function BoolText(b: bool): string {
    if b then "true" else "false"
  }

  function ItemLine(item: Item): string {
    item.key + " = " + item.text
  }

  function TimesLine(t: Times): string {
    Join([ItemLine(Item("start", Quote(t.start))), ItemLine(Item("end", Quote(t.end))),
          ItemLine(Item("timezone", Quote(t.timezone)))], ", ")
  }

  /** The inline table `{ start = "..", end = "..", timezone = ".." }`. */
  function TimesText(t: Times): string {
    "{ " + TimesLine(t) + " }"
  }

  function AgentItems(m: Manifest): seq<Item> {
    [Item("name", Quote(m.name)), Item("version", Quote(m.version)), Item("description", Quote(m.description))]
  }

  function IdentityItems(m: Manifest): seq<Item> {
    [Item("identity_id", NumberText(m.identityId)), Item("wallet_address", Quote(m.walletAddress))]
  }

  function OrganizationItems(m: Manifest): seq<Item> {
    [Item("id", Quote(m.organizationId)), Item("role", Quote(m.role))]
  }

  function CapabilityItems(m: Manifest): seq<Item> {
    [Item("required", ListText(m.capabilities))]
  }

  function PermissionItems(m: Manifest): seq<Item> {
    [Item("max_value_per_tx", Quote(m.maxValuePerTx)),
     Item("max_daily_value", Quote(m.maxDailyValue)),
     Item("allowed_targets", ListText(m.allowedTargets))]
    + match m.allowedTimes
      case None => []
      case Some(t) => [Item("allowed_times", TimesText(t))]
  }

  function SessionItems(m: Manifest): seq<Item> {
    [Item("prefer_lightweight", BoolText(m.preferLightweight)), Item("max_sessions", NumberText(m.maxSessions)),
     Item("default_expiry_hours", NumberText(m.defaultExpiryHours))]
  }

  function PluginItems(m: Manifest): seq<Item> {
    [Item("enabled", ListText(m.plugins))]
  }

  function RuntimeItems(m: Manifest): seq<Item> {
    [Item("restart_on_crash", BoolText(m.restartOnCrash)), Item("max_retries", NumberText(m.maxRetries)),
     Item("log_level", Quote(m.logLevel))]
  }

  function Blocks(m: Manifest): seq<Block> {
    [Block("agent", AgentItems(m)), Block("identity", IdentityItems(m)), Block("organization", OrganizationItems(m)),
     Block("capabilities", CapabilityItems(m)), Block("permissions", PermissionItems(m)),
     Block("sessions", SessionItems(m)), Block("plugins", PluginItems(m)), Block("runtime", RuntimeItems(m))]
  }

  function ItemLines(items: seq<Item>): (lines: seq<string>)
    ensures |lines| == |items|
    ensures forall i :: 0 <= i < |items| ==> lines[i] == ItemLine(items[i])
  {
    if items == [] then [] else [ItemLine(items[0])] + ItemLines(items[1..])
  }

  function BlockLines(block: Block): seq<string> {
    ["[" + block.name + "]"] + ItemLines(block.items) + [""]
  }

  function Document(blocks: seq<Block>): seq<string> {
    if blocks == [] then [] else BlockLines(blocks[0]) + Document(blocks[1..])
  }

  /** The text `saveAgentManifest` writes. */
  function Save(m: Manifest): string {
    Join(Document(Blocks(m)), "\n")
  }

  // ---- One line reads back ----

  /** A line the parser takes as `key = text`. */
  ghost predicate ItemOk(item: Item) {
    item.key != "" && AllWord(item.key) && Solid(item.text) && OneLine(item.text)
  }

  lemma {:induction false} WordPrefixOf(key: string, rest: string)
    requires AllWord(key) && rest != "" && !IsWord(rest[0])
    ensures WordPrefix(key + rest) == |key|
  {
    if key == "" {
      assert key + rest == rest;
    } else {
      WordPrefixOf(key[1..], rest);
      assert (key + rest)[1..] == key[1..] + rest;
    }
  }

  lemma KeyValueMatches(item: Item)
    requires ItemOk(item)
    ensures MatchKeyValue(ItemLine(item)) == Some(KeyValue(item.key, item.text))
  {
    var t, text := ItemLine(item), item.text;
    var after := "= " + text;
    assert t == item.key + (" " + after);
    WordPrefixOf(item.key, " " + after);
    assert t[|item.key|..] == " " + after && t[..|item.key|] == item.key;
    TrimStartSpaced(after);
    assert after[1..] == " " + text;
    TrimStartSpaced(text);
    TrimSolid(text);
  }

  lemma ItemLineIsTrim(item: Item)
    requires ItemOk(item)
    ensures var t := ItemLine(item); t != "" && Trim(t) == t && t[0] != '#' && t[0] != '['
  {
    var t := ItemLine(item);
    assert t[0] == item.key[0] && IsWord(t[0]);
    assert t[|t| - 1] == item.text[|item.text| - 1];
    TrimSolid(t);
  }

  lemma KeyValueReads(p: Parser, t: string, kv: KeyValue)
    requires t != "" && t[0] != '#' && t[0] != '[' && MatchKeyValue(t) == Some(kv)
    ensures ParseTrimmed(p, t) == Put(p, kv.key, ParseValue(kv.raw))
  {
  }

  lemma ItemLineReads(p: Parser, item: Item)
    requires ItemOk(item)
    ensures ParseLine(p, ItemLine(item)) == Put(p, item.key, ParseValue(item.text))
  {
    ItemLineIsTrim(item);
    KeyValueMatches(item);
    KeyValueReads(p, ItemLine(item), KeyValue(item.key, item.text));
  }

  lemma SectionMatches(name: string)
    requires name != "" && AllWord(name)
    ensures MatchSection("[" + name + "]") == Some(name)
  {
    var t := "[" + name + "]";
    assert Inner(t) == name;
    assert Lacks(name, ']');
  }

  lemma SectionReads(p: Parser, t: string, name: string)
    requires t != "" && t[0] != '#' && MatchSection(t) == Some(name)
    ensures ParseTrimmed(p, t) == Parser(p.result[name := Section(map[])], Some(name))
  {
  }

  lemma SectionLineReads(p: Parser, name: string, t: string)
    requires name != "" && AllWord(name) && t == "[" + name + "]"
    ensures ParseLine(p, t) == Parser(p.result[name := Section(map[])], Some(name))
  {
    SectionMatches(name);
    TrimSolid(t);
    SectionReads(p, t, name);
  }

  lemma PutInSection(result: map<string, Entry>, name: string, fields: Fields, key: string, value: Value)
    ensures Put(Parser(result[name := Section(fields)], Some(name)), key, value)
            == Parser(result[name := Section(fields[key := value])], Some(name))
  {
    assert result[name := Section(fields)][name := Section(fields[key := value])]
        == result[name := Section(fields[key := value])];
  }

  // ---- A document reads back ----

  function ItemFields(items: seq<Item>, fields: Fields): Fields
    decreases |items|
  {
    if items == [] then fields else ItemFields(items[1..], fields[items[0].key := ParseValue(items[0].text)])
  }

  function BlockSections(blocks: seq<Block>, result: map<string, Entry>): map<string, Entry>
    decreases |blocks|
  {
    if blocks == [] then result
    else BlockSections(blocks[1..], result[blocks[0].name := Section(ItemFields(blocks[0].items, map[]))])
  }

  ghost predicate ItemsOk(items: seq<Item>) {
    forall i :: 0 <= i < |items| ==> ItemOk(items[i])
  }

  ghost predicate BlockOk(block: Block) {
    block.name != "" && AllWord(block.name) && ItemsOk(block.items)
  }

  lemma ParseFirst(p: Parser, line: string, rest: seq<string>)
    ensures ParseLines(p, [line] + rest) == ParseLines(ParseLine(p, line), rest)
  {
    assert ([line] + rest)[1..] == rest;
  }

  lemma {:induction false} ItemLinesRead(name: string, result: map<string, Entry>, fields: Fields, items: seq<Item>,
                                         rest: seq<string>)
    requires ItemsOk(items)
    ensures ParseLines(Parser(result[name := Section(fields)], Some(name)), ItemLines(items) + rest)
            == ParseLines(Parser(result[name := Section(ItemFields(items, fields))], Some(name)), rest)
    decreases |items|
  {
    if items == [] {
      assert ItemLines(items) + rest == rest;
    } else {
      var item := items[0];
      var fields' := fields[item.key := ParseValue(item.text)];
      ItemLineReads(Parser(result[name := Section(fields)], Some(name)), item);
      PutInSection(result, name, fields, item.key, ParseValue(item.text));
      assert ItemLines(items) + rest == [ItemLine(item)] + (ItemLines(items[1..]) + rest);
      ParseFirst(Parser(result[name := Section(fields)], Some(name)), ItemLine(item), ItemLines(items[1..]) + rest);
      ItemLinesRead(name, result, fields', items[1..], rest);
    }
  }

  lemma BlockReads(p: Parser, block: Block, rest: seq<string>)
    requires BlockOk(block)
    ensures ParseLines(p, BlockLines(block) + rest)
            == ParseLines(Parser(p.result[block.name := Section(ItemFields(block.items, map[]))], Some(block.name)), rest)
  {
    var header := "[" + block.name + "]";
    var body := ItemLines(block.items) + ([""] + rest);
    assert BlockLines(block) + rest == [header] + body;
    SectionLineReads(p, block.name, header);
    ParseFirst(p, header, body);
    ItemLinesRead(block.name, p.result, map[], block.items, [""] + rest);
    var p' := Parser(p.result[block.name := Section(ItemFields(block.items, map[]))], Some(block.name));
    ParseFirst(p', "", rest);
    assert Trim("") == "" && ParseTrimmed(p', "") == p';
  }

  lemma {:induction false} DocumentReads(p: Parser, blocks: seq<Block>)
    requires forall i :: 0 <= i < |blocks| ==> BlockOk(blocks[i])
    ensures ParseLines(p, Document(blocks)).result == BlockSections(blocks, p.result)
    decreases |blocks|
  {
    if blocks != [] {
      BlockReads(p, blocks[0], Document(blocks[1..]));
      DocumentReads(Parser(p.result[blocks[0].name := Section(ItemFields(blocks[0].items, map[]))], Some(blocks[0].name)),
                    blocks[1..]);
    }
  }

  lemma {:induction false} DocumentHasNoNewline(blocks: seq<Block>)
    requires forall i :: 0 <= i < |blocks| ==> BlockOk(blocks[i])
    ensures forall i :: 0 <= i < |Document(blocks)| ==> Lacks(Document(blocks)[i], '\n')
    decreases |blocks|
  {
    if blocks != [] {
      DocumentHasNoNewline(blocks[1..]);
      var block := blocks[0];
      assert Lacks("[" + block.name + "]", '\n') && Lacks("", '\n');
      forall i | 0 <= i < |block.items|
        ensures Lacks(ItemLines(block.items)[i], '\n')
      {
        assert ItemOk(block.items[i]);
      }
    }
  }

  /** Whatever is written as sections of `key = text` lines reads back as those sections. */
  lemma TextReads(blocks: seq<Block>)
    requires blocks != [] && forall i :: 0 <= i < |blocks| ==> BlockOk(blocks[i])
    ensures Parse(Join(Document(blocks), "\n")) == BlockSections(blocks, map[])
  {
    DocumentHasNoNewline(blocks);
    SplitJoin(Document(blocks), '\n');
    DocumentReads(Parser(map[], None), blocks);
  }

  lemma {:induction false} ItemFieldKept(items: seq<Item>, fields: Fields, key: string)
    requires forall i :: 0 <= i < |items| ==> items[i].key != key
    ensures Get(ItemFields(items, fields), key) == Get(fields, key)
    decreases |items|
  {
    if items != [] {
      ItemFieldKept(items[1..], fields[items[0].key := ParseValue(items[0].text)], key);
    }
  }

  lemma {:induction false} ItemFieldAt(items: seq<Item>, fields: Fields, i: nat)
    requires i < |items| && forall j, k :: 0 <= j < k < |items| ==> items[j].key != items[k].key
    ensures Get(ItemFields(items, fields), items[i].key) == Some(ParseValue(items[i].text))
    decreases |items|
  {
    var fields' := fields[items[0].key := ParseValue(items[0].text)];
    if i == 0 {
      ItemFieldKept(items[1..], fields', items[0].key);
    } else {
      ItemFieldAt(items[1..], fields', i - 1);
    }
  }

  lemma {:induction false} SectionKept(blocks: seq<Block>, result: map<string, Entry>, name: string)
    requires forall i :: 0 <= i < |blocks| ==> blocks[i].name != name
    ensures FieldsOf(BlockSections(blocks, result), name) == FieldsOf(result, name)
    decreases |blocks|
  {
    if blocks != [] {
      SectionKept(blocks[1..], result[blocks[0].name := Section(ItemFields(blocks[0].items, map[]))], name);
    }
  }

  lemma {:induction false} SectionAt(blocks: seq<Block>, result: map<string, Entry>, i: nat)
    requires i < |blocks| && forall j, k :: 0 <= j < k < |blocks| ==> blocks[j].name != blocks[k].name
    ensures FieldsOf(BlockSections(blocks, result), blocks[i].name) == ItemFields(blocks[i].items, map[])
    decreases |blocks|
  {
    var result' := result[blocks[0].name := Section(ItemFields(blocks[0].items, map[]))];
    if i == 0 {
      SectionKept(blocks[1..], result', blocks[0].name);
    } else {
      SectionAt(blocks[1..], result', i - 1);
    }
  }

  // ---- Every kind of value reads back ----

  lemma QuoteReads(s: string)
    ensures ParseValue(Quote(s)) == Str(s) && TableValue(Quote(s)) == Str(s)
  {
    InnerQuote(s);
    var q := Quote(s);
    assert q[0] == '"' && DigitPrefix(q) == 0;
  }

  /** What the text of a number reads as: one that is not plain digits, with or without a point, stays text. */
  function ReadNumber(n: JsNumber): Value {
    match n
    case Whole(k) => Num(k)
    case Fraction(digits) => Float(digits)
    case Other(text) => Str(text)
  }

  lemma {:induction false} DigitPrefixDigits(s: string)
    ensures forall k :: 0 <= k < DigitPrefix(s) ==> IsDigit(s[k])
  {
    if s != "" && IsDigit(s[0]) {
      DigitPrefixDigits(s[1..]);
    }
  }

  lemma FloatText(digits: string)
    requires IsFloat(digits)
    ensures IsDigit(digits[0]) && IsDigit(digits[|digits| - 1]) && !AllDigits(digits)
    ensures forall k :: 0 <= k < |digits| ==> IsDigit(digits[k]) || digits[k] == '.'
  {
    var n := DigitPrefix(digits);
    DigitPrefixDigits(digits);
    forall k | 0 <= k < |digits|
      ensures IsDigit(digits[k]) || digits[k] == '.'
    {
      if k > n {
        assert digits[k] == digits[n + 1..][k - n - 1];
      }
    }
    assert digits[|digits| - 1] == digits[n + 1..][|digits| - n - 2];
  }

  lemma NumberReads(n: JsNumber)
    ensures ParseValue(NumberText(n)) == ReadNumber(n)
  {
    match n
    case Whole(k) =>
      PrintRead(k);
      assert IsDigit(Print(k)[0]);
    case Fraction(digits) =>
      FloatText(digits);
    case Other(text) =>
      assert text[0] != '"' && text[0] != '[' && text[0] != '{';
  }

  lemma SolidText(text: string)
    requires text != "" && forall k :: 0 <= k < |text| ==> IsWord(text[k]) || text[k] == '-' || text[k] == '+' || text[k] == '.'
    ensures Solid(text) && OneLine(text)
  {
    forall k | 0 <= k < |text|
      ensures !IsSpace(text[k]) && !IsLineTerminator(text[k])
    {
      assert IsWord(text[k]) || text[k] == '-' || text[k] == '+' || text[k] == '.';
    }
  }

  lemma NumberIsSolid(n: JsNumber)
    ensures Solid(NumberText(n)) && OneLine(NumberText(n))
  {
    match n
    case Whole(k) =>
      PrintRead(k);
    case Fraction(digits) =>
      FloatText(digits);
    case Other(_) =>
    SolidText(NumberText(n));
  }

  lemma NumberItem(key: string, n: JsNumber)
    requires key != "" && AllWord(key)
    ensures ItemOk(Item(key, NumberText(n)))
  {
    NumberIsSolid(n);
  }

  lemma BoolReads(b: bool)
    ensures ParseValue(BoolText(b)) == Bool(b)
  {
  }

  lemma BoolItem(key: string, b: bool)
    requires key != "" && AllWord(key)
    ensures ItemOk(Item(key, BoolText(b)))
  {
  }

  ghost predicate PlainItems(items: seq<string>) {
    forall i :: 0 <= i < |items| ==> OneLine(items[i]) && Lacks(items[i], ',')
  }

  lemma SplitSpaced(s: string, c: char)
    requires c != ' '
    ensures Split(" " + s, c) == [" " + Split(s, c)[0]] + Split(s, c)[1..]
  {
    assert (" " + s)[1..] == s;
  }

  lemma ItemsFirst(part: string, rest: seq<string>)
    ensures Items([part] + rest) == [Unquote(Trim(part))] + Items(rest)
  {
    assert ([part] + rest)[1..] == rest;
  }

  lemma TrimSpaced(s: string)
    ensures Trim(" " + s) == Trim(s)
  {
    assert (" " + s)[1..] == s;
  }

  lemma QuotePart(item: string)
    requires OneLine(item) && Lacks(item, ',')
    ensures var q := Quote(item); Lacks(q, ',') && Unquote(Trim(q)) == item && Unquote(Trim(" " + q)) == item
  {
    var q := Quote(item);
    InnerQuote(item);
    TrimSolid(q);
    UnquoteQuote(item);
  }

  lemma JoinFirst(parts: seq<string>)
    requires |parts| > 1
    ensures Join(parts, ", ") == parts[0] + "," + (" " + Join(parts[1..], ", "))
  {
    assert ", " == "," + " ";
  }

  lemma SplitFirst(first: string, rest: string)
    requires Lacks(first, ',')
    ensures Split(first + "," + (" " + rest), ',') == [first] + ([" " + Split(rest, ',')[0]] + Split(rest, ',')[1..])
  {
    SplitAt(first, ',', " " + rest);
    SplitSpaced(rest, ',');
  }

  lemma PartsOfList(items: seq<string>)
    requires |items| > 1 && Lacks(Quote(items[0]), ',')
    ensures var parts := Split(Join(Quoted(items[1..]), ", "), ',');
            Split(Join(Quoted(items), ", "), ',') == [Quote(items[0])] + ([" " + parts[0]] + parts[1..])
  {
    assert Quoted(items)[1..] == Quoted(items[1..]);
    JoinFirst(Quoted(items));
    SplitFirst(Quote(items[0]), Join(Quoted(items[1..]), ", "));
  }

  /** The items of a printed list, read back from its inside, with or without the space after a comma. */
  lemma {:induction false} ItemsRead(items: seq<string>)
    requires items != [] && PlainItems(items)
    ensures var parts := Split(Join(Quoted(items), ", "), ',');
            Items(parts) == items && Items([" " + parts[0]] + parts[1..]) == items
    decreases |items|
  {
    var q := Quote(items[0]);
    QuotePart(items[0]);
    var tail: seq<string> := [];
    if |items| == 1 {
      assert Join(Quoted(items), ", ") == q;
      SplitLacking(q, ',');
      assert [q] + tail == [q];
    } else {
      var parts := Split(Join(Quoted(items[1..]), ", "), ',');
      ItemsRead(items[1..]);
      PartsOfList(items);
      tail := [" " + parts[0]] + parts[1..];
    }
    ItemsFirst(q, tail);
    ItemsFirst(" " + q, tail);
    assert ([q] + tail)[0] == q && ([q] + tail)[1..] == tail;
    assert [items[0]] + items[1..] == items;
  }

  /** What a list reads back as: an empty one comes back with one empty item. */
  function ReadList(items: seq<string>): seq<string> {
    if items == [] then [""] else items
  }

  lemma {:induction false} JoinOneLine(parts: seq<string>, separator: string)
    requires OneLine(separator) && forall i :: 0 <= i < |parts| ==> OneLine(parts[i])
    ensures OneLine(Join(parts, separator))
  {
    if |parts| > 1 {
      JoinOneLine(parts[1..], separator);
    }
  }

  lemma BracketReads(text: string)
    requires Enclosed(text, '[', ']')
    ensures ParseValue(text) == List(Items(Split(Inner(text), ',')))
  {
    assert DigitPrefix(text) == 0;
  }

  lemma BraceReads(text: string)
    requires Enclosed(text, '{', '}')
    ensures ParseValue(text) == Table(TableEntries(Split(Trim(Inner(text)), ',')))
  {
    assert DigitPrefix(text) == 0;
  }

  lemma ListReads(items: seq<string>)
    requires PlainItems(items)
    ensures ParseValue(ListText(items)) == List(ReadList(items))
  {
    var inside, text := Join(Quoted(items), ", "), ListText(items);
    BracketReads(text);
    assert Inner(text) == inside;
    if items == [] {
      assert Split("", ',') == [""];
      assert Items([""]) == [""] + [] by {
        assert Trim("") == "" && Unquote("") == "";
      }
    } else {
      ItemsRead(items);
    }
  }

  lemma TableEntryReads(parts: seq<string>, part: string, item: Item)
    requires ItemOk(item) && (part == ItemLine(item) || part == " " + ItemLine(item))
    ensures TableEntries(parts + [part]) == TableEntries(parts)[item.key := TableValue(item.text)]
  {
    assert (parts + [part])[..|parts|] == parts;
    ItemLineIsTrim(item);
    TrimSpaced(ItemLine(item));
    KeyValueMatches(item);
  }

  ghost predicate PlainTimes(t: Times) {
    && OneLine(t.start) && OneLine(t.end) && OneLine(t.timezone)
    && Lacks(t.start, ',') && Lacks(t.end, ',') && Lacks(t.timezone, ',')
  }

  lemma QuotedItem(key: string, s: string)
    requires key != "" && AllWord(key) && OneLine(s)
    ensures var item := Item(key, Quote(s));
            ItemOk(item) && OneLine(ItemLine(item)) && (Lacks(s, ',') ==> Lacks(ItemLine(item), ','))
  {
  }

  lemma JoinThree(a: string, b: string, c: string)
    ensures Join([a, b, c], ", ") == a + "," + (" " + b + "," + (" " + c))
  {
    assert [a, b, c][1..] == [b, c] && [b, c][1..] == [c];
    assert Join([b, c], ", ") == b + ", " + c;
  }

  lemma SplitThree(a: string, b: string, c: string)
    requires Lacks(a, ',') && Lacks(b, ',') && Lacks(c, ',')
    ensures Split(Join([a, b, c], ", "), ',') == [a, " " + b, " " + c]
  {
    JoinThree(a, b, c);
    SplitAt(a, ',', " " + b + "," + (" " + c));
    SplitAt(" " + b, ',', " " + c);
    SplitLacking(" " + c, ',');
  }

  lemma TimesEntries(t: Times)
    requires PlainTimes(t)
    ensures TableEntries(Split(TimesLine(t), ','))
            == map["start" := Str(t.start), "end" := Str(t.end), "timezone" := Str(t.timezone)]
  {
    var x, y, z := Item("start", Quote(t.start)), Item("end", Quote(t.end)), Item("timezone", Quote(t.timezone));
    var a, b, c := ItemLine(x), ItemLine(y), ItemLine(z);
    QuotedItem("start", t.start);
    QuotedItem("end", t.end);
    QuotedItem("timezone", t.timezone);
    QuoteReads(t.start);
    QuoteReads(t.end);
    QuoteReads(t.timezone);
    SplitThree(a, b, c);
    TableEntryReads([], a, x);
    TableEntryReads([a], " " + b, y);
    TableEntryReads([a, " " + b], " " + c, z);
    assert [] + [a] == [a] && [a] + [" " + b] == [a, " " + b] && [a, " " + b] + [" " + c] == [a, " " + b, " " + c];
  }

  lemma TimesLineShape(t: Times)
    requires PlainTimes(t)
    ensures Solid(TimesLine(t)) && OneLine(TimesLine(t))
  {
    var x, y, z := Item("start", Quote(t.start)), Item("end", Quote(t.end)), Item("timezone", Quote(t.timezone));
    QuotedItem("start", t.start);
    QuotedItem("end", t.end);
    QuotedItem("timezone", t.timezone);
    JoinThree(ItemLine(x), ItemLine(y), ItemLine(z));
    JoinOneLine([ItemLine(x), ItemLine(y), ItemLine(z)], ", ");
  }

  lemma TimesRead(t: Times)
    requires PlainTimes(t)
    ensures ParseValue(TimesText(t))
            == Table(map["start" := Str(t.start), "end" := Str(t.end), "timezone" := Str(t.timezone)])
  {
    var inside, text := TimesLine(t), TimesText(t);
    TimesLineShape(t);
    BraceReads(text);
    assert Inner(text) == " " + inside + " ";
    TrimSolid(inside);
    TimesEntries(t);
  }

  // ---- A saved manifest reads back ----

  /** No line terminator in any string, and no comma in a list item or a time. */
  ghost predicate Plain(m: Manifest) {
    && OneLine(m.name) && OneLine(m.version) && OneLine(m.description) && OneLine(m.walletAddress)
    && OneLine(m.organizationId) && OneLine(m.role) && OneLine(m.maxValuePerTx) && OneLine(m.maxDailyValue)
    && OneLine(m.logLevel)
    && PlainItems(m.capabilities) && PlainItems(m.allowedTargets) && PlainItems(m.plugins)
    && (m.allowedTimes.Some? ==> PlainTimes(m.allowedTimes.value))
  }

  /** What a plain manifest reads back as. */
  function Restored(agentName: string, m: Manifest): Loaded {
    AsLoaded(m).(
      name := Str(if m.name == "" then agentName else m.name),
      version := Str(if m.version == "" then "1.0.0" else m.version),
      role := Str(if m.role == "" then "member" else m.role),
      capabilities := List(ReadList(m.capabilities)),
      maxValuePerTx := Str(if m.maxValuePerTx == "" then "1000000000000000000" else m.maxValuePerTx),
      maxDailyValue := Str(if m.maxDailyValue == "" then "10000000000000000000" else m.maxDailyValue),
      allowedTargets := List(ReadList(m.allowedTargets)),
      allowedTimes := match m.allowedTimes
                      case None => None
                      case Some(t) => Some(LoadedTimes(Some(Str(t.start)), Some(Str(t.end)),
                                                       Str(if t.timezone == "" then "UTC" else t.timezone))),
      identityId := ReadNumber(m.identityId),
      maxSessions := if m.maxSessions == Whole(0) then Num(5) else ReadNumber(m.maxSessions),
      defaultExpiryHours := if m.defaultExpiryHours == Whole(0) then Num(24) else ReadNumber(m.defaultExpiryHours),
      plugins := List(ReadList(m.plugins)),
      maxRetries := if m.maxRetries == Whole(0) then Num(3) else ReadNumber(m.maxRetries),
      logLevel := Str(if m.logLevel == "" then "info" else m.logLevel))
  }

  lemma BlockNamesDistinct(m: Manifest)
    ensures forall j, k :: 0 <= j < k < |Blocks(m)| ==> Blocks(m)[j].name != Blocks(m)[k].name
  {
    assert "sessions" != "identity" by { assert "sessions"[0] != "identity"[0]; }
    assert "organization" != "capabilities" by { assert "organization"[0] != "capabilities"[0]; }
    assert "plugins" != "runtime" by { assert "plugins"[0] != "runtime"[0]; }
  }

  lemma AgentOk(m: Manifest)
    requires Plain(m)
    ensures ItemsOk(AgentItems(m))
  {
    QuotedItem("name", m.name);
    QuotedItem("version", m.version);
    QuotedItem("description", m.description);
  }

  lemma IdentityOk(m: Manifest)
    requires Plain(m)
    ensures ItemsOk(IdentityItems(m)) && ItemsOk(OrganizationItems(m))
  {
    NumberItem("identity_id", m.identityId);
    QuotedItem("wallet_address", m.walletAddress);
    QuotedItem("id", m.organizationId);
    QuotedItem("role", m.role);
  }

  lemma ListItemOk(key: string, items: seq<string>)
    requires key != "" && AllWord(key) && PlainItems(items)
    ensures ItemOk(Item(key, ListText(items)))
  {
    JoinOneLine(Quoted(items), ", ");
  }

  lemma TimesItemOk(t: Times)
    requires PlainTimes(t)
    ensures ItemOk(Item("allowed_times", TimesText(t)))
  {
    TimesLineShape(t);
  }

  lemma PermissionsOk(m: Manifest)
    requires Plain(m)
    ensures ItemsOk(PermissionItems(m))
  {
    QuotedItem("max_value_per_tx", m.maxValuePerTx);
    QuotedItem("max_daily_value", m.maxDailyValue);
    ListItemOk("allowed_targets", m.allowedTargets);
    if m.allowedTimes.Some? {
      TimesItemOk(m.allowedTimes.value);
    }
  }

  lemma SessionsOk(m: Manifest)
    ensures ItemsOk(SessionItems(m))
  {
    BoolItem("prefer_lightweight", m.preferLightweight);
    NumberItem("max_sessions", m.maxSessions);
    NumberItem("default_expiry_hours", m.defaultExpiryHours);
  }

  lemma RuntimeOk(m: Manifest)
    requires Plain(m)
    ensures ItemsOk(RuntimeItems(m))
  {
    BoolItem("restart_on_crash", m.restartOnCrash);
    NumberItem("max_retries", m.maxRetries);
    QuotedItem("log_level", m.logLevel);
  }

  lemma ListsOk(m: Manifest)
    requires Plain(m)
    ensures ItemsOk(CapabilityItems(m)) && ItemsOk(PluginItems(m))
  {
    ListItemOk("required", m.capabilities);
    ListItemOk("enabled", m.plugins);
  }

  lemma BlockNames(m: Manifest)
    ensures forall i :: 0 <= i < |Blocks(m)| ==> Blocks(m)[i].name != "" && AllWord(Blocks(m)[i].name)
  {
  }

  lemma BlocksOk(m: Manifest)
    requires Plain(m)
    ensures forall i :: 0 <= i < |Blocks(m)| ==> BlockOk(Blocks(m)[i])
  {
    AgentOk(m);
    IdentityOk(m);
    ListsOk(m);
    PermissionsOk(m);
    SessionsOk(m);
    RuntimeOk(m);
    BlockNames(m);
  }

  /** What the parser makes of a section, looked up in its text. */
  function Lookup(items: seq<Item>, key: string): Option<Value> {
    Get(ItemFields(items, map[]), key)
  }

  lemma OneItem(a: Item)
    ensures Lookup([a], a.key) == Some(ParseValue(a.text))
  {
    ItemFieldAt([a], map[], 0);
  }

  lemma TwoItems(a: Item, b: Item)
    requires a.key != b.key
    ensures Lookup([a, b], a.key) == Some(ParseValue(a.text)) && Lookup([a, b], b.key) == Some(ParseValue(b.text))
  {
    ItemFieldAt([a, b], map[], 0);
    ItemFieldAt([a, b], map[], 1);
  }

  lemma ThreeItems(a: Item, b: Item, c: Item)
    requires a.key != b.key && a.key != c.key && b.key != c.key
    ensures Lookup([a, b, c], a.key) == Some(ParseValue(a.text)) && Lookup([a, b, c], b.key) == Some(ParseValue(b.text))
            && Lookup([a, b, c], c.key) == Some(ParseValue(c.text))
  {
    ItemFieldAt([a, b, c], map[], 0);
    ItemFieldAt([a, b, c], map[], 1);
    ItemFieldAt([a, b, c], map[], 2);
  }

  lemma SavedSections(m: Manifest)
    requires Plain(m)
    ensures var parsed, blocks := Parse(Save(m)), Blocks(m);
            forall i :: 0 <= i < |blocks| ==> FieldsOf(parsed, blocks[i].name) == ItemFields(blocks[i].items, map[])
  {
    BlocksOk(m);
    TextReads(Blocks(m));
    BlockNamesDistinct(m);
    forall i | 0 <= i < |Blocks(m)|
      ensures FieldsOf(Parse(Save(m)), Blocks(m)[i].name) == ItemFields(Blocks(m)[i].items, map[])
    {
      SectionAt(Blocks(m), map[], i);
    }
  }

  lemma AgentReads(m: Manifest)
    ensures var agent := AgentItems(m);
            && Lookup(agent, "name") == Some(Str(m.name)) && Lookup(agent, "version") == Some(Str(m.version))
            && Lookup(agent, "description") == Some(Str(m.description))
  {
    ThreeItems(Item("name", Quote(m.name)), Item("version", Quote(m.version)),
               Item("description", Quote(m.description)));
    QuoteReads(m.name);
    QuoteReads(m.version);
    QuoteReads(m.description);
  }

  lemma IdentityReads(m: Manifest)
    ensures Lookup(IdentityItems(m), "identity_id") == Some(ReadNumber(m.identityId))
    ensures Lookup(IdentityItems(m), "wallet_address") == Some(Str(m.walletAddress))
  {
    TwoItems(Item("identity_id", NumberText(m.identityId)), Item("wallet_address", Quote(m.walletAddress)));
    NumberReads(m.identityId);
    QuoteReads(m.walletAddress);
  }

  lemma OrganizationReads(m: Manifest)
    ensures Lookup(OrganizationItems(m), "id") == Some(Str(m.organizationId))
    ensures Lookup(OrganizationItems(m), "role") == Some(Str(m.role))
  {
    TwoItems(Item("id", Quote(m.organizationId)), Item("role", Quote(m.role)));
    QuoteReads(m.organizationId);
    QuoteReads(m.role);
  }

  lemma SessionsRead(m: Manifest)
    ensures var sessions := SessionItems(m);
            && Lookup(sessions, "prefer_lightweight") == Some(Bool(m.preferLightweight))
            && Lookup(sessions, "max_sessions") == Some(ReadNumber(m.maxSessions))
            && Lookup(sessions, "default_expiry_hours") == Some(ReadNumber(m.defaultExpiryHours))
  {
    ThreeItems(Item("prefer_lightweight", BoolText(m.preferLightweight)), Item("max_sessions", NumberText(m.maxSessions)),
               Item("default_expiry_hours", NumberText(m.defaultExpiryHours)));
    BoolReads(m.preferLightweight);
    NumberReads(m.maxSessions);
    NumberReads(m.defaultExpiryHours);
  }

  lemma RuntimeReads(m: Manifest)
    ensures var runtime := RuntimeItems(m);
            && Lookup(runtime, "restart_on_crash") == Some(Bool(m.restartOnCrash))
            && Lookup(runtime, "max_retries") == Some(ReadNumber(m.maxRetries))
            && Lookup(runtime, "log_level") == Some(Str(m.logLevel))
  {
    ThreeItems(Item("restart_on_crash", BoolText(m.restartOnCrash)), Item("max_retries", NumberText(m.maxRetries)),
               Item("log_level", Quote(m.logLevel)));
    BoolReads(m.restartOnCrash);
    NumberReads(m.maxRetries);
    QuoteReads(m.logLevel);
  }

  lemma ListsRead(m: Manifest)
    requires Plain(m)
    ensures Lookup(CapabilityItems(m), "required") == Some(List(ReadList(m.capabilities)))
    ensures Lookup(PluginItems(m), "enabled") == Some(List(ReadList(m.plugins)))
  {
    OneItem(Item("required", ListText(m.capabilities)));
    OneItem(Item("enabled", ListText(m.plugins)));
    ListReads(m.capabilities);
    ListReads(m.plugins);
  }

  lemma PermissionsRead(m: Manifest)
    requires Plain(m)
    ensures var items := PermissionItems(m);
            && Lookup(items, "max_value_per_tx") == Some(Str(m.maxValuePerTx))
            && Lookup(items, "max_daily_value") == Some(Str(m.maxDailyValue))
            && Lookup(items, "allowed_targets") == Some(List(ReadList(m.allowedTargets)))
            && Lookup(items, "allowed_times")
               == match m.allowedTimes
                  case None => None
                  case Some(t) => Some(Table(map["start" := Str(t.start), "end" := Str(t.end), "timezone" := Str(t.timezone)]))
  {
    var items := PermissionItems(m);
    assert "max_daily_value" != "allowed_targets" by { assert "max_daily_value"[0] != "allowed_targets"[0]; }
    assert items[0].key == "max_value_per_tx" && items[1].key == "max_daily_value" && items[2].key == "allowed_targets";
    ItemFieldAt(items, map[], 0);
    ItemFieldAt(items, map[], 1);
    ItemFieldAt(items, map[], 2);
    QuoteReads(m.maxValuePerTx);
    QuoteReads(m.maxDailyValue);
    ListReads(m.allowedTargets);
    if m.allowedTimes.Some? {
      ItemFieldAt(items, map[], 3);
      TimesRead(m.allowedTimes.value);
    } else {
      ItemFieldKept(items, map[], "allowed_times");
    }
  }

  /** The parse result holds what was saved. */
  ghost predicate Holds(parsed: map<string, Entry>, m: Manifest) {
    && FieldsOf(parsed, "agent") == ItemFields(AgentItems(m), map[])
    && FieldsOf(parsed, "identity") == ItemFields(IdentityItems(m), map[])
    && FieldsOf(parsed, "organization") == ItemFields(OrganizationItems(m), map[])
    && FieldsOf(parsed, "capabilities") == ItemFields(CapabilityItems(m), map[])
    && FieldsOf(parsed, "permissions") == ItemFields(PermissionItems(m), map[])
    && FieldsOf(parsed, "sessions") == ItemFields(SessionItems(m), map[])
    && FieldsOf(parsed, "plugins") == ItemFields(PluginItems(m), map[])
    && FieldsOf(parsed, "runtime") == ItemFields(RuntimeItems(m), map[])
  }

  lemma SavedHolds(m: Manifest)
    requires Plain(m)
    ensures Holds(Parse(Save(m)), m)
  {
    var blocks := Blocks(m);
    SavedSections(m);
    assert blocks[0].name == "agent" && blocks[1].name == "identity" && blocks[2].name == "organization"
           && blocks[3].name == "capabilities" && blocks[4].name == "permissions" && blocks[5].name == "sessions"
           && blocks[6].name == "plugins" && blocks[7].name == "runtime";
  }

  lemma HeldAgent(agentName: string, m: Manifest, parsed: map<string, Entry>)
    requires Holds(parsed, m)
    ensures var l, r := LoadFrom(agentName, parsed), Restored(agentName, m);
            l.name == r.name && l.version == r.version && l.description == r.description
  {
    AgentReads(m);
  }

  lemma HeldIdentity(agentName: string, m: Manifest, parsed: map<string, Entry>)
    requires Holds(parsed, m)
    ensures var l, r := LoadFrom(agentName, parsed), Restored(agentName, m);
            l.identityId == r.identityId && l.walletAddress == r.walletAddress
  {
    IdentityReads(m);
  }

  lemma HeldOrganization(agentName: string, m: Manifest, parsed: map<string, Entry>)
    requires Holds(parsed, m)
    ensures var l, r := LoadFrom(agentName, parsed), Restored(agentName, m);
            l.organizationId == r.organizationId && l.role == r.role
  {
    OrganizationReads(m);
  }

  lemma HeldSessions(agentName: string, m: Manifest, parsed: map<string, Entry>)
    requires Holds(parsed, m)
    ensures var l, r := LoadFrom(agentName, parsed), Restored(agentName, m);
            && l.preferLightweight == r.preferLightweight && l.maxSessions == r.maxSessions
            && l.defaultExpiryHours == r.defaultExpiryHours
  {
    SessionsRead(m);
  }

  lemma HeldRuntime(agentName: string, m: Manifest, parsed: map<string, Entry>)
    requires Holds(parsed, m)
    ensures var l, r := LoadFrom(agentName, parsed), Restored(agentName, m);
            l.restartOnCrash == r.restartOnCrash && l.maxRetries == r.maxRetries && l.logLevel == r.logLevel
  {
    RuntimeReads(m);
  }

  lemma HeldLists(agentName: string, m: Manifest, parsed: map<string, Entry>)
    requires Plain(m) && Holds(parsed, m)
    ensures var l, r := LoadFrom(agentName, parsed), Restored(agentName, m);
            l.capabilities == r.capabilities && l.plugins == r.plugins
  {
    ListsRead(m);
  }

  lemma HeldLimits(agentName: string, m: Manifest, parsed: map<string, Entry>)
    requires Plain(m) && Holds(parsed, m)
    ensures var l, r := LoadFrom(agentName, parsed), Restored(agentName, m);
            && l.maxValuePerTx == r.maxValuePerTx && l.maxDailyValue == r.maxDailyValue
            && l.allowedTargets == r.allowedTargets
  {
    PermissionsRead(m);
  }

  lemma TimesLoad(v: Value, t: Times)
    requires v == Table(map["start" := Str(t.start), "end" := Str(t.end), "timezone" := Str(t.timezone)])
    ensures LoadTimes(Some(v)) == Some(LoadedTimes(Some(Str(t.start)), Some(Str(t.end)),
                                                   Str(if t.timezone == "" then "UTC" else t.timezone)))
  {
    assert "end" != "start";
  }

  lemma HeldTimes(agentName: string, m: Manifest, parsed: map<string, Entry>)
    requires Plain(m) && Holds(parsed, m)
    ensures LoadFrom(agentName, parsed).allowedTimes == Restored(agentName, m).allowedTimes
  {
    PermissionsRead(m);
    if m.allowedTimes.Some? {
      var t := m.allowedTimes.value;
      TimesLoad(Table(map["start" := Str(t.start), "end" := Str(t.end), "timezone" := Str(t.timezone)]), t);
    }
  }

  /** A plain manifest reads back as itself, except that defaulted fields and empty lists read back as their defaults. */
  lemma PlainReads(agentName: string, m: Manifest)
    requires Plain(m)
    ensures Load(agentName, Save(m)) == Restored(agentName, m)
  {
    var parsed := Parse(Save(m));
    SavedHolds(m);
    HeldAgent(agentName, m, parsed);
    HeldIdentity(agentName, m, parsed);
    HeldOrganization(agentName, m, parsed);
    HeldSessions(agentName, m, parsed);
    HeldRuntime(agentName, m, parsed);
    HeldLists(agentName, m, parsed);
    HeldLimits(agentName, m, parsed);
    HeldTimes(agentName, m, parsed);
  }

  // ---- Nothing else can be read ----

  ghost predicate CleanEntry(v: Value) {
    v.Num? || v.Bool? || (v.Str? && OneLine(v.text) && Lacks(v.text, ','))
  }

  /** The values any text can yield. */
  ghost predicate CleanValue(v: Value) {
    match v
    case Str(text) => OneLine(text)
    case List(items) => items != [] && PlainItems(items)
    case Table(entries) => forall k :: k in entries ==> CleanEntry(entries[k])
    case _ => true
  }

  ghost predicate CleanFields(fields: Fields) {
    forall k :: k in fields ==> CleanValue(fields[k])
  }

  ghost predicate CleanResult(result: map<string, Entry>) {
    forall n :: n in result ==>
      match result[n]
      case Leaf(v) => CleanValue(v)
      case Section(fields) => CleanFields(fields)
  }

  lemma KeyValueIsClean(t: string)
    ensures var kv := MatchKeyValue(t);
            kv.Some? ==> OneLine(kv.value.raw) && (Lacks(t, ',') ==> Lacks(kv.value.raw, ','))
  {
    var n := WordPrefix(t);
    var rest := TrimStart(t[n..]);
    if MatchKeyValue(t).Some? {
      var value := TrimStart(rest[1..]);
      TrimStartWithin(t[n..]);
      TrimStartWithin(rest[1..]);
      TrimWithin(value);
      assert OneLine(value);
    }
  }

  lemma {:induction false} TableIsClean(parts: seq<string>)
    requires forall i :: 0 <= i < |parts| ==> Lacks(parts[i], ',')
    ensures forall k :: k in TableEntries(parts) ==> CleanEntry(TableEntries(parts)[k])
  {
    if parts != [] {
      TableIsClean(parts[..|parts| - 1]);
      var last := parts[|parts| - 1];
      TrimWithin(last);
      KeyValueIsClean(Trim(last));
      var kv := MatchKeyValue(Trim(last));
      if kv.Some? {
        InnerWithin(kv.value.raw);
      }
    }
  }

  lemma {:induction false} ItemsAreClean(parts: seq<string>)
    requires PlainItems(parts)
    ensures |Items(parts)| == |parts| && PlainItems(Items(parts))
  {
    if parts != [] {
      ItemsAreClean(parts[1..]);
      TrimWithin(parts[0]);
      UnquoteWithin(Trim(parts[0]));
    }
  }

  lemma ListIsClean(inside: string)
    requires OneLine(inside)
    ensures CleanValue(List(Items(Split(inside, ','))))
  {
    var parts := Split(inside, ',');
    forall i | 0 <= i < |parts|
      ensures OneLine(parts[i]) && Lacks(parts[i], ',')
    {
      SplitParts(inside, ',', i);
      WithinKeeps(parts[i], inside, ',');
    }
    ItemsAreClean(parts);
  }

  lemma ValueIsClean(raw: string)
    requires OneLine(raw)
    ensures CleanValue(ParseValue(raw))
  {
    var inside := Inner(raw);
    InnerWithin(raw);
    WithinKeeps(inside, raw, ',');
    ListIsClean(inside);
    var parts := Split(Trim(inside), ',');
    forall i | 0 <= i < |parts|
      ensures Lacks(parts[i], ',')
    {
      SplitParts(Trim(inside), ',', i);
    }
    TableIsClean(parts);
  }

  lemma PutStaysClean(p: Parser, key: string, v: Value)
    requires CleanResult(p.result) && CleanValue(v)
    ensures CleanResult(Put(p, key, v).result)
  {
  }

  lemma TrimmedStaysClean(p: Parser, t: string)
    requires CleanResult(p.result)
    requires var kv := MatchKeyValue(t); kv.Some? ==> CleanResult(Put(p, kv.value.key, ParseValue(kv.value.raw)).result)
    ensures CleanResult(ParseTrimmed(p, t).result)
  {
  }

  lemma LineStaysClean(p: Parser, line: string)
    requires CleanResult(p.result)
    ensures CleanResult(ParseLine(p, line).result)
  {
    var t := Trim(line);
    KeyValueIsClean(t);
    var kv := MatchKeyValue(t);
    if kv.Some? {
      ValueIsClean(kv.value.raw);
      PutStaysClean(p, kv.value.key, ParseValue(kv.value.raw));
    }
    TrimmedStaysClean(p, t);
  }

  lemma {:induction false} LinesStayClean(p: Parser, lines: seq<string>)
    requires CleanResult(p.result)
    ensures CleanResult(ParseLines(p, lines).result)
    decreases |lines|
  {
    if lines != [] {
      LineStaysClean(p, lines[0]);
      LinesStayClean(ParseLine(p, lines[0]), lines[1..]);
    }
  }

  /** Whatever the text, a parsed string has no line terminator, and a parsed list is non-empty with plain items. */
  lemma ParseIsClean(content: string)
    ensures CleanResult(Parse(content))
  {
    LinesStayClean(Parser(map[], None), Split(content, '\n'));
  }

  lemma FieldsAreClean(result: map<string, Entry>, section: string)
    requires CleanResult(result)
    ensures CleanFields(FieldsOf(result, section))
  {
  }

  lemma LoadedStringIsClean(fields: Fields, key: string, default: string, s: string)
    requires CleanFields(fields) && OneLine(default) && Or(Get(fields, key), Str(default)) == Str(s)
    ensures OneLine(s)
  {
  }

  lemma LoadedListIsClean(fields: Fields, key: string, items: seq<string>)
    requires CleanFields(fields) && Or(Get(fields, key), List([])) == List(items)
    ensures PlainItems(items)
  {
  }

  lemma LoadedTimesAreClean(fields: Fields, t: Times)
    requires CleanFields(fields)
    requires LoadTimes(Get(fields, "allowed_times"))
             == Some(LoadedTimes(Some(Str(t.start)), Some(Str(t.end)), Str(t.timezone)))
    ensures PlainTimes(t)
  {
  }

  lemma LoadedAgentIsPlain(agentName: string, parsed: map<string, Entry>, m: Manifest)
    requires OneLine(agentName) && CleanResult(parsed)
    requires var l := LoadFrom(agentName, parsed);
             l.name == Str(m.name) && l.version == Str(m.version) && l.description == Str(m.description)
    ensures OneLine(m.name) && OneLine(m.version) && OneLine(m.description)
  {
    FieldsAreClean(parsed, "agent");
    LoadedStringIsClean(FieldsOf(parsed, "agent"), "name", agentName, m.name);
    LoadedStringIsClean(FieldsOf(parsed, "agent"), "version", "1.0.0", m.version);
    LoadedStringIsClean(FieldsOf(parsed, "agent"), "description", "", m.description);
  }

  lemma LoadedIdentityIsPlain(agentName: string, parsed: map<string, Entry>, m: Manifest)
    requires CleanResult(parsed)
    requires var l := LoadFrom(agentName, parsed);
             && l.walletAddress == Str(m.walletAddress) && l.organizationId == Str(m.organizationId)
             && l.role == Str(m.role) && l.logLevel == Str(m.logLevel)
    ensures OneLine(m.walletAddress) && OneLine(m.organizationId) && OneLine(m.role) && OneLine(m.logLevel)
  {
    FieldsAreClean(parsed, "identity");
    LoadedStringIsClean(FieldsOf(parsed, "identity"), "wallet_address", "", m.walletAddress);
    FieldsAreClean(parsed, "organization");
    LoadedStringIsClean(FieldsOf(parsed, "organization"), "id", "", m.organizationId);
    LoadedStringIsClean(FieldsOf(parsed, "organization"), "role", "member", m.role);
    FieldsAreClean(parsed, "runtime");
    LoadedStringIsClean(FieldsOf(parsed, "runtime"), "log_level", "info", m.logLevel);
  }

  lemma LoadedListsArePlain(agentName: string, parsed: map<string, Entry>, m: Manifest)
    requires CleanResult(parsed)
    requires var l := LoadFrom(agentName, parsed); l.capabilities == List(m.capabilities) && l.plugins == List(m.plugins)
    ensures PlainItems(m.capabilities) && PlainItems(m.plugins)
  {
    FieldsAreClean(parsed, "capabilities");
    LoadedListIsClean(FieldsOf(parsed, "capabilities"), "required", m.capabilities);
    FieldsAreClean(parsed, "plugins");
    LoadedListIsClean(FieldsOf(parsed, "plugins"), "enabled", m.plugins);
  }

  lemma LimitIsPlain(permissions: Fields, key: string, default: string, limit: string)
    requires CleanFields(permissions) && Or(Get(permissions, key), Str(default)) == Str(limit)
    requires forall k :: 0 <= k < |default| ==> IsDigit(default[k])
    ensures OneLine(limit)
  {
    LoadedStringIsClean(permissions, key, default, limit);
  }

  lemma PermissionFieldsArePlain(permissions: Fields, m: Manifest)
    requires CleanFields(permissions)
    requires Or(Get(permissions, "max_value_per_tx"), Str("1000000000000000000")) == Str(m.maxValuePerTx)
    requires Or(Get(permissions, "max_daily_value"), Str("10000000000000000000")) == Str(m.maxDailyValue)
    ensures OneLine(m.maxValuePerTx) && OneLine(m.maxDailyValue)
  {
    LimitIsPlain(permissions, "max_value_per_tx", "1000000000000000000", m.maxValuePerTx);
    LimitIsPlain(permissions, "max_daily_value", "10000000000000000000", m.maxDailyValue);
  }

  lemma LoadedPermissionsArePlain(agentName: string, parsed: map<string, Entry>, m: Manifest)
    requires CleanResult(parsed)
    requires var l := LoadFrom(agentName, parsed);
             && l.maxValuePerTx == Str(m.maxValuePerTx) && l.maxDailyValue == Str(m.maxDailyValue)
             && l.allowedTargets == List(m.allowedTargets)
    ensures OneLine(m.maxValuePerTx) && OneLine(m.maxDailyValue) && PlainItems(m.allowedTargets)
  {
    FieldsAreClean(parsed, "permissions");
    PermissionFieldsArePlain(FieldsOf(parsed, "permissions"), m);
    LoadedListIsClean(FieldsOf(parsed, "permissions"), "allowed_targets", m.allowedTargets);
  }

  lemma LoadedTimesArePlain(agentName: string, parsed: map<string, Entry>, m: Manifest)
    requires CleanResult(parsed) && LoadFrom(agentName, parsed).allowedTimes == AsLoaded(m).allowedTimes
    ensures m.allowedTimes.Some? ==> PlainTimes(m.allowedTimes.value)
  {
    FieldsAreClean(parsed, "permissions");
    if m.allowedTimes.Some? {
      LoadedTimesAreClean(FieldsOf(parsed, "permissions"), m.allowedTimes.value);
    }
  }

  lemma LoadedIsPlain(agentName: string, content: string, m: Manifest)
    requires OneLine(agentName) && Load(agentName, content) == AsLoaded(m)
    ensures Plain(m)
  {
    ParseIsClean(content);
    LoadedAgentIsPlain(agentName, Parse(content), m);
    LoadedIdentityIsPlain(agentName, Parse(content), m);
    LoadedListsArePlain(agentName, Parse(content), m);
    LoadedPermissionsArePlain(agentName, Parse(content), m);
    LoadedTimesArePlain(agentName, Parse(content), m);
  }

  /**
   * Plain, with no empty list, no empty or zero value in a field that has another default, and no number that is
   * negative or printed with an exponent or as a word.
   */
  ghost predicate Storable(agentName: string, m: Manifest) {
    && Plain(m)
    && (m.name != "" || agentName == "") && m.version != "" && m.role != "" && m.logLevel != ""
    && m.maxValuePerTx != "" && m.maxDailyValue != ""
    && m.capabilities != [] && m.allowedTargets != [] && m.plugins != []
    && (m.allowedTimes.Some? ==> m.allowedTimes.value.timezone != "")
    && m.maxSessions != Whole(0) && m.defaultExpiryHours != Whole(0) && m.maxRetries != Whole(0)
    && !m.identityId.Other? && !m.maxSessions.Other? && !m.defaultExpiryHours.Other? && !m.maxRetries.Other?
  }

  lemma RestoredIsSame(agentName: string, m: Manifest)
    ensures Restored(agentName, m) == AsLoaded(m) && Plain(m) <==> Storable(agentName, m)
  {
    if Restored(agentName, m) == AsLoaded(m) {
      var r, l := Restored(agentName, m), AsLoaded(m);
      assert r.name == l.name && r.capabilities == l.capabilities && r.allowedTimes == l.allowedTimes;
    }
  }

  /**
   * Loading what was saved gives the same manifest back when it is storable; and, for an agent name without
   * line terminators, only then.
   */
  lemma RoundTrip(agentName: string, m: Manifest)
    ensures Storable(agentName, m) ==> Load(agentName, Save(m)) == AsLoaded(m)
    ensures OneLine(agentName) && Load(agentName, Save(m)) == AsLoaded(m) ==> Storable(agentName, m)
  {
    RestoredIsSame(agentName, m);
    if OneLine(agentName) && Load(agentName, Save(m)) == AsLoaded(m) {
      LoadedIsPlain(agentName, Save(m), m);
    }
    if Plain(m) {
      PlainReads(agentName, m);
    }
  }
}
