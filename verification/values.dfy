/** Runtime values of a query and the three-valued operators on them. */
module Values {
  datatype Option<+T> = None | Some(value: T)

  type VarId = nat

  datatype Value =
    | Null
    | Bool(flag: bool)
    | Int(number: int)
    | Text(text: string)
    | NodeRef(node: nat)
    | RelRef(rel: nat)
    | List(items: seq<Value>)
    | Map(entries: map<string, Value>)
    | Path(nodes: seq<Value>, rels: seq<Value>)
  {
    /** What a filter keeps: anything but null and false. */
    predicate Truthy() {
      match this
      case Null => false
      case Bool(b) => b
      case _ => true
    }

    /** The value read as a truth value: null, or whether it is truthy. */
    function Truth(): Value {
      if Null? then Null else Bool(Truthy())
    }
  }

  /** A row binds variables to values; an unbound variable reads as null. */
  type Row = map<VarId, Value>

  function Lookup(row: Row, v: VarId): Value {
    if v in row then row[v] else Null
  }

  /** The two rows bind the same variables of `vars`, to the same values. */
  ghost predicate SameOn(a: Row, b: Row, vars: set<VarId>) {
    forall v | v in vars :: (v in a <==> v in b) && (v in a ==> a[v] == b[v])
  }

  // ----- three-valued logic -----

  function And3(l: Value, r: Value): Value {
    if l.Null? || r.Null? then
      if (!l.Null? && !l.Truthy()) || (!r.Null? && !r.Truthy()) then Bool(false) else Null
    else
      Bool(l.Truthy() && r.Truthy())
  }

  function Or3(l: Value, r: Value): Value {
    if l.Null? || r.Null? then
      if (!l.Null? && l.Truthy()) || (!r.Null? && r.Truthy()) then Bool(true) else Null
    else
      Bool(l.Truthy() || r.Truthy())
  }

  function Xor3(l: Value, r: Value): Value {
    if l.Null? || r.Null? then Null else Bool(l.Truthy() != r.Truthy())
  }

  function Not3(v: Value): Value {
    if v.Null? then Null else Bool(!v.Truthy())
  }

  // ----- comparisons -----

  datatype Ordering = Less | Equal | Greater

  function CompareInts(a: int, b: int): Ordering {
    if a < b then Less else if a == b then Equal else Greater
  }

  /** Lexicographic, by code point; a proper prefix sorts first. */
  function CompareText(a: string, b: string): Ordering {
    if a == "" then (if b == "" then Equal else Less)
    else if b == "" then Greater
    else if a[0] < b[0] then Less
    else if a[0] > b[0] then Greater
    else CompareText(a[1..], b[1..])
  }

  /** `None` when Cypher does not order the operands: a null, or two kinds. */
  function Compare(a: Value, b: Value): Option<Ordering> {
    if a.Int? && b.Int? then Some(CompareInts(a.number, b.number))
    else if a.Text? && b.Text? then Some(CompareText(a.text, b.text))
    else if a.Bool? && b.Bool? then Some(if a.flag == b.flag then Equal else if b.flag then Less else Greater)
    else if a.List? && b.List? then CompareLists(a.items, b.items)
    else None
  }

  function CompareLists(xs: seq<Value>, ys: seq<Value>): Option<Ordering> {
    if xs == [] then Some(if ys == [] then Equal else Less)
    else if ys == [] then Some(Greater)
    else match Compare(xs[0], ys[0])
      case None => None
      case Some(Equal) => CompareLists(xs[1..], ys[1..])
      case decided => decided
  }

  function Equal3(l: Value, r: Value): Value {
    if l.Null? || r.Null? then Null else Bool(l == r)
  }

  /** `l IN r`: true on a match, null when a null hides the answer. */
  function In3(l: Value, r: Value): Value {
    if r == List([]) then Bool(false)
    else if l.Null? then Null
    else if r.List? then
      if l in r.items then Bool(true) else if Null in r.items then Null else Bool(false)
    else if r.Null? then Null
    else Bool(false)
  }

  predicate StartsWith(s: string, prefix: string) {
    |prefix| <= |s| && s[..|prefix|] == prefix
  }

  predicate EndsWith(s: string, suffix: string) {
    |suffix| <= |s| && s[|s| - |suffix|..] == suffix
  }

  predicate Contains(s: string, part: string) {
    exists i | 0 <= i <= |s| :: StartsWith(s[i..], part)
  }

  datatype TextTest = TestStartsWith | TestEndsWith | TestContains

  predicate TextHolds(test: TextTest, s: string, query: string) {
    match test
    case TestStartsWith => StartsWith(s, query)
    case TestEndsWith => EndsWith(s, query)
    case TestContains => Contains(s, query)
  }

  function Text3(test: TextTest, l: Value, r: Value): Value {
    if l.Null? || r.Null? then Null
    else if l.Text? && r.Text? then Bool(TextHolds(test, l.text, r.text))
    else Bool(l.List? && test.TestContains? && r in l.items)
  }

  // ----- laws of the connectives -----

  lemma AndTruthy(l: Value, r: Value)
    ensures And3(l, r).Truthy() <==> l.Truthy() && r.Truthy()
  {}

  lemma OrTruthy(l: Value, r: Value)
    ensures Or3(l, r).Truthy() <==> l.Truthy() || r.Truthy()
  {}

  /** The connectives read their operands only as truth values. */
  lemma ConnectivesReadTruth(l: Value, r: Value)
    ensures And3(l.Truth(), r.Truth()) == And3(l, r)
    ensures Or3(l.Truth(), r.Truth()) == Or3(l, r)
    ensures Not3(l.Truth()) == Not3(l)
  {}
}
