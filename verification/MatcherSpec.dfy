// Field matchers as they are written in the configuration, what they mean, and
// what they are compiled to (internal/config/config.go, internal/types/logentry.go).
module MatcherSpec {
  import opened GoStrings
  import opened LogEntries
  import opened IncludeGraph

  datatype Option<T> = None | Some(value: T)
  datatype Result<T> = Ok(value: T) | Err

  // A value of the decoded YAML; the entries of an object in the order in which
  // the map happens to be iterated.
  datatype Value =
    | VString(s: string)
    | VInt(n: int)
    | VList(items: seq<Value>)
    | VObject(entries: seq<(string, Value)>)
    | VOther

  // netip.Prefix
  datatype Prefix = Prefix(v6: bool, bits: seq<bool>)

  // What the standard library contributes: regular expressions, prefix syntax and
  // path joining.
  datatype Env = Env(
    regexValid: string -> bool,
    regexMatch: (string, string) -> bool,
    parsePrefix: string -> Option<Prefix>,
    resolve: Resolver)

  ghost predicate ValidEnv(env: Env) {
    env.parsePrefix("") == None
  }

  predicate PrefixContains(p: Prefix, a: Addr) {
    match a
    case NoAddr => false
    case Addr4(bits) => !p.v6 && p.bits <= bits
    case Addr6(bits) => p.v6 && p.bits <= bits
  }

  // ----------------------------------------------------------------- fields

  datatype FieldType = StringField | IntField | UnsupportedField

  datatype FieldValue = NoValue | StringValue(s: string) | IntValue(n: int)

  // The type of a canonical field name, as GetMatchValue reports it.
  function TypeOf(field: string): FieldType {
    if field in {"IP", "Path", "Method", "Protocol", "UserAgent", "Referrer", "VHost"} then StringField
    else if field in {"StatusCode", "Size"} then IntField
    else UnsupportedField
  }

  // GetMatchValue
  function GetMatchValue(field: string, e: LogEntry): (v: FieldValue)
    ensures v.StringValue? <==> TypeOf(field) == StringField
    ensures v.IntValue? <==> TypeOf(field) == IntField
  {
    match field
    case "IP" => StringValue(e.ip.address)
    case "Path" => StringValue(e.path)
    case "Method" => StringValue(e.httpMethod)
    case "Protocol" => StringValue(e.protocol)
    case "UserAgent" => StringValue(e.userAgent)
    case "Referrer" => StringValue(e.referrer)
    case "StatusCode" => IntValue(e.statusCode)
    case "Size" => IntValue(e.size)
    case "VHost" => StringValue(e.vhost)
    case _ => NoValue
  }

  // GetMatchValueIfType, without its cache.
  function TypedValue(field: string, t: FieldType, e: LogEntry): FieldValue {
    if TypeOf(field) == t then GetMatchValue(field, e) else NoValue
  }

  function ToLowerChar(c: char): char {
    if 'A' <= c <= 'Z' then (c as int + 32) as char else c
  }

  function ToLower(s: string): (r: string)
    ensures |r| == |s|
  {
    seq(|s|, i requires 0 <= i < |s| => ToLowerChar(s[i]))
  }

  const CANONICAL: map<string, string> := map[
    "ip" := "IP", "path" := "Path", "method" := "Method", "protocol" := "Protocol",
    "useragent" := "UserAgent", "user_agent" := "UserAgent", "referrer" := "Referrer",
    "statuscode" := "StatusCode", "size" := "Size", "vhost" := "VHost"]

  // The field name used for matching.
  function Canonical(field: string): string {
    if ToLower(field) in CANONICAL then CANONICAL[ToLower(field)] else field
  }

  lemma CanonicalIsFixed(field: string)
    ensures Canonical(Canonical(field)) == Canonical(field)
  {
    assert ToLower("IP") == "ip";
    assert ToLower("Path") == "path";
    assert ToLower("Method") == "method";
    assert ToLower("Protocol") == "protocol";
    assert ToLower("UserAgent") == "useragent";
    assert ToLower("Referrer") == "referrer";
    assert ToLower("StatusCode") == "statuscode";
    assert ToLower("Size") == "size";
    assert ToLower("VHost") == "vhost";
  }

  // ------------------------------------------------------- string directives

  datatype Directive =
    | Literal(s: string)         // equal to s
    | Include(rel: string)       // any line of a file
    | Regex(pattern: string)
    | Cidr(text: string)
    | StatusPrefix(prefix: string)

  // strconv.Atoi accepts it.
  predicate IsAtoi(s: string) {
    var digits := if s != "" && (s[0] == '+' || s[0] == '-') then s[1..] else s;
    && digits != "" && AllDigits(digits)
    && (if s[0] == '-' then Decimal(digits) <= 0x8000_0000_0000_0000 else Decimal(digits) <= 0x7FFF_FFFF_FFFF_FFFF)
  }

  // The first 'x' or 'X'.
  function IndexOfX(s: string): int {
    if s == "" then -1
    else if s[0] == 'x' || s[0] == 'X' then 0
    else var i := IndexOfX(s[1..]); if i < 0 then -1 else i + 1
  }

  predicate IsStatusPattern(field: string, s: string)
    ensures IsStatusPattern(field, s) ==> 0 < IndexOfX(s) <= |s|
  {
    IndexBounded(s);
    field == "StatusCode" && IndexOfX(s) > 0 && IsAtoi(s[..IndexOfX(s)])
  }

  lemma IndexBounded(s: string)
    ensures IndexOfX(s) < |s|
  {
  }

  predicate LooksLikeDirective(s: string) {
    HasPrefix(s, "exact:") || HasPrefix(s, "regex:") || HasPrefix(s, "cidr:") || HasPrefix(s, "file:")
  }

  // The branches of CompileStringMatcher, in its order.
  function Classify(field: string, s: string): Directive {
    if HasPrefix(s, "exact:") then Literal(TrimPrefix(s, "exact:"))
    else if s != "file:" && HasPrefix(s, "file:") then Include(TrimPrefix(s, "file:"))
    else if s != "regex:" && HasPrefix(s, "regex:") then Regex(TrimPrefix(s, "regex:"))
    else if s != "cidr:" && HasPrefix(s, "cidr:") then Cidr(TrimPrefix(s, "cidr:"))
    else if IsStatusPattern(field, s) then StatusPrefix(s[..IndexOfX(s)])
    else if LooksLikeDirective(TrimSpace(s)) then Literal(s)
    else Literal(TrimSpace(s))
  }

  predicate IsInclude(s: string) {
    s != "file:" && HasPrefix(s, "file:")
  }

  lemma IncludeClassified(field: string, s: string)
    ensures Classify(field, s).Include? <==> IsInclude(s)
    ensures IsInclude(s) ==> Classify(field, s).rel == TrimPrefix(s, FILE_PREFIX)
  {
    if HasPrefix(s, "exact:") { assert s[0] == "exact:"[0]; }
  }

  // The file an include opens.
  function Target(env: Env, file: Path, s: string): Path {
    env.resolve(file, TrimPrefix(s, FILE_PREFIX))
  }

  function Strings(lines: seq<string>): (r: seq<Value>)
    ensures |r| == |lines| && forall i :: 0 <= i < |r| ==> r[i] == VString(lines[i])
  {
    seq(|lines|, i requires 0 <= i < |lines| => VString(lines[i]))
  }

  // ------------------------------------------------------ includes terminate

  // Every include in v opens a listed file that ranks below bound.
  ghost predicate Ranked(env: Env, order: seq<Path>, file: Path, v: Value, bound: nat) {
    match v
    case VString(s) => IsInclude(s) ==> Target(env, file, s) in order && Rank(order, Target(env, file, s)) < bound
    case VList(items) => forall i :: 0 <= i < |items| ==> Ranked(env, order, file, items[i], bound)
    case VObject(entries) => forall i :: 0 <= i < |entries| ==> Ranked(env, order, file, entries[i].1, bound)
    case _ => true
  }

  // Every include in a listed file opens a file that ranks below it.
  ghost predicate FilesRanked(env: Env, fs: FileSystem, order: seq<Path>) {
    forall p, i :: p in order && 0 <= i < |ReadLines(fs, p)| ==>
      Ranked(env, order, p, VString(ReadLines(fs, p)[i]), Rank(order, p))
  }

  // ----------------------------------------------------------------- meaning

  predicate RangeHolds(op: string, n: int, bound: int) {
    match op
    case "gt" => n > bound
    case "gte" => n >= bound
    case "lt" => n < bound
    case "lte" => n <= bound
    case _ => false
  }

  predicate IsRange(op: string) {
    op == "gt" || op == "gte" || op == "lt" || op == "lte"
  }

  predicate DirectiveHolds(env: Env, field: string, d: Directive, e: LogEntry)
    requires !d.Include?
  {
    match d
    case Literal(s) => TypedValue(field, StringField, e) == StringValue(s)
    case Regex(pattern) =>
      var v := TypedValue(field, StringField, e);
      v.StringValue? && env.regexMatch(pattern, v.s)
    case Cidr(text) => env.parsePrefix(text).Some? && PrefixContains(env.parsePrefix(text).value, e.ip.addr)
    case StatusPrefix(prefix) =>
      var v := TypedValue(field, IntField, e);
      v.IntValue? && HasPrefix(Itoa(v.n), prefix)
  }

  // What a value says about an entry: a list is any of its items, an object all of
  // its operators, `not` the complement, an included file any of its lines.
  ghost predicate Means(env: Env, fs: FileSystem, order: seq<Path>, file: Path, field: string, v: Value, bound: nat,
          e: LogEntry)
    requires FilesRanked(env, fs, order) && Ranked(env, order, file, v, bound)
    decreases bound, v, 1
  {
    match v
    case VString(s) =>
      if IsInclude(s) then
        var t := Target(env, file, s);
        exists i :: 0 <= i < |ReadLines(fs, t)| &&
          Means(env, fs, order, t, field, VString(ReadLines(fs, t)[i]), Rank(order, t), e)
      else
        IncludeClassified(field, s);
        DirectiveHolds(env, field, Classify(field, s), e)
    case VInt(n) => TypedValue(field, IntField, e) == IntValue(n)
    case VList(items) => exists i :: 0 <= i < |items| && Means(env, fs, order, file, field, items[i], bound, e)
    case VObject(entries) =>
      forall i :: 0 <= i < |entries| ==> OperatorMeans(env, fs, order, file, field, v, i, bound, e)
    case VOther => false
  }

  // The k-th operator of an object.
  ghost predicate OperatorMeans(env: Env, fs: FileSystem, order: seq<Path>, file: Path, field: string, v: Value,
          k: nat, bound: nat, e: LogEntry)
    requires FilesRanked(env, fs, order) && Ranked(env, order, file, v, bound) && v.VObject? && k < |v.entries|
    decreases bound, v, 0
  {
    var op, operand := v.entries[k].0, v.entries[k].1;
    if op == "not" then !Means(env, fs, order, file, field, operand, bound, e)
    else
      var x := TypedValue(field, IntField, e);
      operand.VInt? && x.IntValue? && RangeHolds(op, x.n, operand.n)
  }

  predicate DirectiveAccepted(env: Env, field: string, d: Directive) {
    match d
    case Regex(pattern) => env.regexValid(pattern)
    case Cidr(text) => field == "IP" && env.parsePrefix(text).Some?
    case _ => true
  }

  // Whether the compiler accepts a value.
  ghost predicate WellFormed(env: Env, fs: FileSystem, order: seq<Path>, file: Path, field: string, v: Value,
          bound: nat)
    requires FilesRanked(env, fs, order) && Ranked(env, order, file, v, bound)
    decreases bound, v, 1
  {
    match v
    case VString(s) =>
      if IsInclude(s) then
        var t := Target(env, file, s);
        forall i :: 0 <= i < |ReadLines(fs, t)| ==>
          WellFormed(env, fs, order, t, field, VString(ReadLines(fs, t)[i]), Rank(order, t))
      else DirectiveAccepted(env, field, Classify(field, s))
    case VInt(_) => true
    case VList(items) => forall i :: 0 <= i < |items| ==> WellFormed(env, fs, order, file, field, items[i], bound)
    case VObject(entries) =>
      entries != [] &&
      forall i :: 0 <= i < |entries| ==> WellFormedOperator(env, fs, order, file, field, v, i, bound)
    case VOther => false
  }

  ghost predicate WellFormedOperator(env: Env, fs: FileSystem, order: seq<Path>, file: Path, field: string, v: Value,
          k: nat, bound: nat)
    requires FilesRanked(env, fs, order) && Ranked(env, order, file, v, bound) && v.VObject? && k < |v.entries|
    decreases bound, v, 0
  {
    var op, operand := v.entries[k].0, v.entries[k].1;
    if op == "not" then WellFormed(env, fs, order, file, field, operand, bound)
    else IsRange(op) && operand.VInt? && TypeOf(field) == IntField
  }
}
