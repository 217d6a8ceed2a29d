/**
  The canonical printer behind every binding and mandate hash: object members are printed in key order, undefined
  members are dropped, and big integers are printed as decimal strings.  Equal output means equal value, and exactly so.
 */
module StableJson {
  import opened Wrappers
  import opened JsonText

  /** Values as the program holds them; numbers are the integers that print in plain decimal. */
  datatype Json =
    | Null
    | Bool(flag: bool)
    | Number(number: int)
    | BigInt(big: int)
    | String(text: Text)
    | Array(items: seq<Json>)
    | Object(members: seq<Member>)

  datatype Member = Defined(key: Text, value: Json) | Undefined(key: Text)

  // ---- objects

  /** An object has one member per key. */
  predicate UniqueKeys(members: seq<Member>) {
    forall i, j | 0 <= i < j < |members| :: members[i].key != members[j].key
  }

  predicate WellFormed(v: Json) {
    match v
    case Array(items) => forall i | 0 <= i < |items| :: WellFormed(items[i])
    case Object(members) =>
      && UniqueKeys(members)
      && forall i | 0 <= i < |members| :: members[i].Defined? ==> WellFormed(members[i].value)
    case _ => true
  }

  function DefinedKeys(members: seq<Member>): (keys: seq<Text>)
    ensures forall k :: k in keys <==> exists i | 0 <= i < |members| :: members[i].Defined? && members[i].key == k
  {
    if members == [] then []
    else
      var rest := DefinedKeys(members[1..]);
      if members[0].Defined? then [members[0].key] + rest else rest
  }

  predicate Distinct(keys: seq<Text>) {
    forall i, j | 0 <= i < j < |keys| :: keys[i] != keys[j]
  }

  lemma {:induction false} DefinedKeysAreDistinct(members: seq<Member>)
    requires UniqueKeys(members)
    ensures Distinct(DefinedKeys(members))
    decreases |members|
  {
    if members != [] {
      DefinedKeysAreDistinct(members[1..]);
      if members[0].key in DefinedKeys(members[1..]) {
        var i := MemberIndex(members[1..], members[0].key);
        assert false;
      }
    }
  }

  /** Where the defined member of a key stands. */
  function MemberIndex(members: seq<Member>, key: Text): (i: nat)
    requires key in DefinedKeys(members)
    ensures i < |members| && members[i].Defined? && members[i].key == key
  {
    if members[0].Defined? && members[0].key == key then 0 else 1 + MemberIndex(members[1..], key)
  }

  // ---- sorting keys

  function InsertKey(key: Text, sorted: seq<Text>): (r: seq<Text>)
    ensures forall k :: k in r <==> k == key || k in sorted
  {
    if sorted == [] then [key]
    else if Before(sorted[0], key) then [sorted[0]] + InsertKey(key, sorted[1..])
    else [key] + sorted
  }

  function SortKeys(keys: seq<Text>): (r: seq<Text>)
    ensures forall k :: k in r <==> k in keys
  {
    if keys == [] then [] else InsertKey(keys[0], SortKeys(keys[1..]))
  }

  predicate Sorted(keys: seq<Text>) {
    keys == [] || ((forall k | k in keys[1..] :: Before(keys[0], k)) && Sorted(keys[1..]))
  }

  lemma {:induction false} InsertKeepsSorted(key: Text, sorted: seq<Text>)
    requires Sorted(sorted) && key !in sorted
    ensures Sorted(InsertKey(key, sorted))
    decreases |sorted|
  {
    if sorted == [] {
    } else if Before(sorted[0], key) {
      InsertKeepsSorted(key, sorted[1..]);
      var r := InsertKey(key, sorted);
      assert r[1..] == InsertKey(key, sorted[1..]);
    } else {
      var r := InsertKey(key, sorted);
      assert r[1..] == sorted;
      BeforeIsStrictOrder(key, sorted[0], key);
      forall k | k in sorted ensures Before(key, k) {
        BeforeIsStrictOrder(key, sorted[0], k);
      }
    }
  }

  lemma {:induction false} SortingSorts(keys: seq<Text>)
    requires Distinct(keys)
    ensures Sorted(SortKeys(keys))
    decreases |keys|
  {
    if keys != [] {
      SortingSorts(keys[1..]);
      InsertKeepsSorted(keys[0], SortKeys(keys[1..]));
    }
  }

  lemma HeadIsMember(keys: seq<Text>)
    requires keys != []
    ensures keys[0] in keys
  {
  }

  /** A set of keys has one sorted listing. */
  lemma {:induction false} SortedListingIsUnique(a: seq<Text>, b: seq<Text>)
    requires Sorted(a) && Sorted(b)
    requires forall k :: k in a <==> k in b
    ensures a == b
    decreases |a|
  {
    if a == [] {
      if b != [] {
        HeadIsMember(b);
        assert false;
      }
    } else {
      assert a[0] in b;
      assert b != [] && b[0] in a;
      if a[0] != b[0] {
        assert a[0] in b[1..] && b[0] in a[1..];
        BeforeIsStrictOrder(a[0], b[0], a[0]);
      }
      forall k ensures k in a[1..] <==> k in b[1..] {
        BeforeIsStrictOrder(a[0], k, k);
        assert k in a <==> k == a[0] || k in a[1..];
        assert k in b <==> k == b[0] || k in b[1..];
      }
      SortedListingIsUnique(a[1..], b[1..]);
      assert a == [a[0]] + a[1..] && b == [b[0]] + b[1..];
    }
  }

  // ---- the printer

  const TRUE_TEXT: Text := [0x74, 0x72, 0x75, 0x65]
  const FALSE_TEXT: Text := [0x66, 0x61, 0x6c, 0x73, 0x65]
  const NULL_TEXT: Text := [0x6e, 0x75, 0x6c, 0x6c]

  function Join(parts: seq<Text>): Text {
    if parts == [] then [] else if |parts| == 1 then parts[0] else parts[0] + [COMMA] + Join(parts[1..])
  }

  function StableStringify(v: Json): Text {
    match v
    case Null => NULL_TEXT
    case Bool(flag) => if flag then TRUE_TEXT else FALSE_TEXT
    case Number(n) => Decimal(n)
    case BigInt(n) => Quoted(Decimal(n))
    case String(text) => Quoted(text)
    case Array(items) =>
      [OPEN_BRACKET] + Join(seq(|items|, i requires 0 <= i < |items| => StableStringify(items[i]))) + [CLOSE_BRACKET]
    case Object(members) =>
      var keys := SortKeys(DefinedKeys(members));
      [OPEN_BRACE]
      + Join(seq(|keys|, i requires 0 <= i < |keys| =>
          Quoted(keys[i]) + [COLON] + StableStringify(members[MemberIndex(members, keys[i])].value)))
      + [CLOSE_BRACE]
  }

  // ---- normalized values

  datatype Canon =
    | CNull
    | CBool(flag: bool)
    | CNumber(number: int)
    | CString(text: Text)
    | CArray(items: seq<Canon>)
    | CObject(entries: seq<Entry>)

  datatype Entry = Entry(key: Text, value: Canon)

  /** What the printed form stands for: members sorted, undefined ones gone, big integers turned into strings. */
  function Normal(v: Json): Canon {
    match v
    case Null => CNull
    case Bool(flag) => CBool(flag)
    case Number(n) => CNumber(n)
    case BigInt(n) => CString(Decimal(n))
    case String(text) => CString(text)
    case Array(items) => CArray(seq(|items|, i requires 0 <= i < |items| => Normal(items[i])))
    case Object(members) =>
      var keys := SortKeys(DefinedKeys(members));
      CObject(seq(|keys|, i requires 0 <= i < |keys| =>
        Entry(keys[i], Normal(members[MemberIndex(members, keys[i])].value))))
  }

  function Render(c: Canon): Text {
    match c
    case CNull => NULL_TEXT
    case CBool(flag) => if flag then TRUE_TEXT else FALSE_TEXT
    case CNumber(n) => Decimal(n)
    case CString(text) => Quoted(text)
    case CArray(items) => [OPEN_BRACKET] + Join(RenderItems(items)) + [CLOSE_BRACKET]
    case CObject(entries) => [OPEN_BRACE] + Join(RenderEntries(entries)) + [CLOSE_BRACE]
  }

  function RenderItems(items: seq<Canon>): (parts: seq<Text>)
    ensures |parts| == |items| && forall i | 0 <= i < |items| :: parts[i] == Render(items[i])
  {
    seq(|items|, i requires 0 <= i < |items| => Render(items[i]))
  }

  function RenderEntry(e: Entry): Text {
    Quoted(e.key) + [COLON] + Render(e.value)
  }

  function RenderEntries(entries: seq<Entry>): (parts: seq<Text>)
    ensures |parts| == |entries| && forall i | 0 <= i < |entries| :: parts[i] == RenderEntry(entries[i])
  {
    seq(|entries|, i requires 0 <= i < |entries| => RenderEntry(entries[i]))
  }

  /** The printer prints the normalized value. */
  lemma {:induction false} PrintsNormalValue(v: Json)
    ensures StableStringify(v) == Render(Normal(v))
    decreases v
  {
    match v
    case Array(items) =>
      forall i | 0 <= i < |items| ensures StableStringify(items[i]) == Render(Normal(items[i])) {
        PrintsNormalValue(items[i]);
      }
      var canon := Normal(v).items;
      assert seq(|items|, i requires 0 <= i < |items| => StableStringify(items[i]))
             == RenderItems(canon);
    case Object(members) =>
      var keys := SortKeys(DefinedKeys(members));
      var entries := Normal(v).entries;
      forall i | 0 <= i < |keys|
        ensures Quoted(keys[i]) + [COLON] + StableStringify(members[MemberIndex(members, keys[i])].value)
                == RenderEntry(entries[i])
      {
        PrintsNormalValue(members[MemberIndex(members, keys[i])].value);
      }
      assert seq(|keys|, i requires 0 <= i < |keys| =>
               Quoted(keys[i]) + [COLON] + StableStringify(members[MemberIndex(members, keys[i])].value))
             == RenderEntries(entries);
    case _ =>
  }

  // ---- a parser that undoes the printer

  function Parse(t: Text): (r: Option<Scanned<Canon>>)
    ensures r.Some? ==> |r.value.rest| < |t|
    decreases |t|, 0
  {
    if t == [] then None
    else if t[0] == QUOTE then
      match ScanQuoted(t) {
        case Some(s) => Some(Scanned(CString(s.value), s.rest))
        case None => None
      }
    else if t[0] == OPEN_BRACKET then
      if |t| > 1 && t[1] == CLOSE_BRACKET then Some(Scanned(CArray([]), t[2..]))
      else
        match ParseItems(t[1..]) {
          case Some(s) => Some(Scanned(CArray(s.value), s.rest))
          case None => None
        }
    else if t[0] == OPEN_BRACE then
      if |t| > 1 && t[1] == CLOSE_BRACE then Some(Scanned(CObject([]), t[2..]))
      else
        match ParseEntries(t[1..]) {
          case Some(s) => Some(Scanned(CObject(s.value), s.rest))
          case None => None
        }
    else if NULL_TEXT <= t then Some(Scanned(CNull, t[4..]))
    else if TRUE_TEXT <= t then Some(Scanned(CBool(true), t[4..]))
    else if FALSE_TEXT <= t then Some(Scanned(CBool(false), t[5..]))
    else
      match ScanDecimal(t)
      case Some(s) => Some(Scanned(CNumber(s.value), s.rest))
      case None => None
  }

  function ParseItems(t: Text): (r: Option<Scanned<seq<Canon>>>)
    ensures r.Some? ==> |r.value.rest| < |t|
    decreases |t|, 1
  {
    match Parse(t)
    case None => None
    case Some(first) =>
      if first.rest == [] then None
      else if first.rest[0] == CLOSE_BRACKET then Some(Scanned([first.value], first.rest[1..]))
      else if first.rest[0] == COMMA then
        match ParseItems(first.rest[1..]) {
          case Some(more) => Some(Scanned([first.value] + more.value, more.rest))
          case None => None
        }
      else None
  }

  function ParseEntry(t: Text): (r: Option<Scanned<Entry>>)
    ensures r.Some? ==> |r.value.rest| < |t|
    decreases |t|, 1
  {
    match ScanQuoted(t)
    case None => None
    case Some(key) =>
      if key.rest == [] || key.rest[0] != COLON then None
      else
        match Parse(key.rest[1..]) {
          case Some(v) => Some(Scanned(Entry(key.value, v.value), v.rest))
          case None => None
        }
  }

  function ParseEntries(t: Text): (r: Option<Scanned<seq<Entry>>>)
    ensures r.Some? ==> |r.value.rest| < |t|
    decreases |t|, 2
  {
    match ParseEntry(t)
    case None => None
    case Some(first) =>
      if first.rest == [] then None
      else if first.rest[0] == CLOSE_BRACE then Some(Scanned([first.value], first.rest[1..]))
      else if first.rest[0] == COMMA then
        match ParseEntries(first.rest[1..]) {
          case Some(more) => Some(Scanned([first.value] + more.value, more.rest))
          case None => None
        }
      else None
  }

  lemma ScalarStart(n: int, rest: Text)
    requires EndsScalar(rest)
    ensures Parse(Decimal(n) + rest) == Some(Scanned(CNumber(n), rest))
  {
    var t := Decimal(n) + rest;
    DecimalScans(n, rest);
    assert t[0] == Decimal(n)[0];
    assert NULL_TEXT[0] == 0x6e && TRUE_TEXT[0] == 0x74 && FALSE_TEXT[0] == 0x66;
  }

  lemma KeywordsParse(flag: bool, rest: Text)
    ensures Parse(NULL_TEXT + rest) == Some(Scanned(CNull, rest))
    ensures Parse((if flag then TRUE_TEXT else FALSE_TEXT) + rest) == Some(Scanned(CBool(flag), rest))
  {
    assert (NULL_TEXT + rest)[4..] == rest;
    assert (TRUE_TEXT + rest)[4..] == rest && (TRUE_TEXT + rest)[0] == 0x74;
    assert (FALSE_TEXT + rest)[5..] == rest && (FALSE_TEXT + rest)[0] == 0x66;
  }

  lemma StringsParse(text: Text, rest: Text)
    ensures Parse(Quoted(text) + rest) == Some(Scanned(CString(text), rest))
  {
    QuotedScans(text, rest);
    assert (Quoted(text) + rest)[0] == QUOTE;
  }

  lemma RenderStart(c: Canon)
    ensures Render(c) != [] && Render(c)[0] != CLOSE_BRACKET && Render(c)[0] != CLOSE_BRACE
  {
  }

  lemma JoinStep(parts: seq<Text>, tail: Text)
    requires |parts| >= 2
    ensures Join(parts) + tail == parts[0] + ([COMMA] + (Join(parts[1..]) + tail))
  {
    Assoc(parts[0], [COMMA], Join(parts[1..]));
    Assoc(parts[0], [COMMA] + Join(parts[1..]), tail);
    Assoc([COMMA], Join(parts[1..]), tail);
  }

  /** Parsing what was rendered gives the value back and stops where it ended. */
  lemma {:induction false} ParseUndoesRender(c: Canon, rest: Text)
    requires EndsScalar(rest)
    ensures Parse(Render(c) + rest) == Some(Scanned(c, rest))
    decreases c
  {
    match c
    case CNull => KeywordsParse(true, rest);
    case CBool(flag) => KeywordsParse(flag, rest);
    case CNumber(n) => ScalarStart(n, rest);
    case CString(text) => StringsParse(text, rest);
    case CArray(items) =>
      if items == [] {
        EmptyParses(rest);
      } else {
        ItemsParse(items, rest);
        ArrayOpens(items, rest);
      }
    case CObject(entries) =>
      if entries == [] {
        EmptyParses(rest);
      } else {
        EntriesParse(entries, rest);
        ObjectOpens(entries, rest);
      }
  }

  lemma EmptyParses(rest: Text)
    ensures Parse(Render(CArray([])) + rest) == Some(Scanned(CArray([]), rest))
    ensures Parse(Render(CObject([])) + rest) == Some(Scanned(CObject([]), rest))
  {
    assert Render(CArray([])) == [OPEN_BRACKET, CLOSE_BRACKET];
    assert Render(CObject([])) == [OPEN_BRACE, CLOSE_BRACE];
    assert (Render(CArray([])) + rest)[2..] == rest && (Render(CObject([])) + rest)[2..] == rest;
  }

  lemma ArrayOpens(items: seq<Canon>, rest: Text)
    requires items != []
    requires ParseItems(Join(RenderItems(items)) + ([CLOSE_BRACKET] + rest)) == Some(Scanned(items, rest))
    ensures Parse(Render(CArray(items)) + rest) == Some(Scanned(CArray(items), rest))
  {
    var body := Join(RenderItems(items));
    RenderStart(items[0]);
    assert body[0] == Render(items[0])[0];
    Assoc([OPEN_BRACKET], body, [CLOSE_BRACKET]);
    Assoc([OPEN_BRACKET], body + [CLOSE_BRACKET], rest);
    Assoc(body, [CLOSE_BRACKET], rest);
    Opened(OPEN_BRACKET, body + ([CLOSE_BRACKET] + rest));
  }

  lemma ObjectOpens(entries: seq<Entry>, rest: Text)
    requires entries != []
    requires ParseEntries(Join(RenderEntries(entries)) + ([CLOSE_BRACE] + rest)) == Some(Scanned(entries, rest))
    ensures Parse(Render(CObject(entries)) + rest) == Some(Scanned(CObject(entries), rest))
  {
    var body := Join(RenderEntries(entries));
    assert body[0] == RenderEntry(entries[0])[0] == QUOTE;
    Assoc([OPEN_BRACE], body, [CLOSE_BRACE]);
    Assoc([OPEN_BRACE], body + [CLOSE_BRACE], rest);
    Assoc(body, [CLOSE_BRACE], rest);
    Opened(OPEN_BRACE, body + ([CLOSE_BRACE] + rest));
  }

  lemma Opened(bracket: Unit, body: Text)
    ensures ([bracket] + body)[0] == bracket && ([bracket] + body)[1..] == body
    ensures body != [] ==> ([bracket] + body)[1] == body[0]
  {
  }

  lemma {:induction false} ItemsParse(items: seq<Canon>, rest: Text)
    requires items != []
    ensures ParseItems(Join(RenderItems(items)) + ([CLOSE_BRACKET] + rest)) == Some(Scanned(items, rest))
    decreases items
  {
    var parts, closing := RenderItems(items), [CLOSE_BRACKET] + rest;
    Opened(CLOSE_BRACKET, rest);
    if |items| == 1 {
      ParseUndoesRender(items[0], closing);
      assert Join(parts) == parts[0] && items == [items[0]];
    } else {
      var tail := Join(parts[1..]) + closing;
      JoinStep(parts, closing);
      Opened(COMMA, tail);
      ParseUndoesRender(items[0], [COMMA] + tail);
      ItemsParse(items[1..], rest);
      assert RenderItems(items[1..]) == parts[1..];
      assert items == [items[0]] + items[1..];
    }
  }

  lemma EntryParses(e: Entry, rest: Text)
    requires EndsScalar(rest)
    ensures ParseEntry(RenderEntry(e) + rest) == Some(Scanned(e, rest))
    decreases e
  {
    ParseUndoesRender(e.value, rest);
    var tail := Render(e.value) + rest;
    QuotedScans(e.key, [COLON] + tail);
    Opened(COLON, tail);
    Assoc(Quoted(e.key), [COLON], Render(e.value));
    Assoc(Quoted(e.key), [COLON] + Render(e.value), rest);
    Assoc([COLON], Render(e.value), rest);
  }

  lemma {:induction false} EntriesParse(entries: seq<Entry>, rest: Text)
    requires entries != []
    ensures ParseEntries(Join(RenderEntries(entries)) + ([CLOSE_BRACE] + rest)) == Some(Scanned(entries, rest))
    decreases entries
  {
    var parts, closing := RenderEntries(entries), [CLOSE_BRACE] + rest;
    Opened(CLOSE_BRACE, rest);
    if |entries| == 1 {
      EntryParses(entries[0], closing);
      assert Join(parts) == parts[0] && entries == [entries[0]];
    } else {
      var tail := Join(parts[1..]) + closing;
      JoinStep(parts, closing);
      Opened(COMMA, tail);
      EntryParses(entries[0], [COMMA] + tail);
      EntriesParse(entries[1..], rest);
      assert RenderEntries(entries[1..]) == parts[1..];
      assert entries == [entries[0]] + entries[1..];
    }
  }

  /** The parser inverts the printer: the canonical string determines the normalized value. */
  lemma ParserInvertsPrinter(v: Json)
    ensures Parse(StableStringify(v)) == Some(Scanned(Normal(v), []))
  {
    PrintsNormalValue(v);
    ParseUndoesRender(Normal(v), []);
    assert Render(Normal(v)) + [] == Render(Normal(v));
  }

  // ---- which values print alike

  /** Strings and big integers have a text; nothing else does. */
  function TextOf(v: Json): Option<Text> {
    match v
    case String(text) => Some(text)
    case BigInt(n) => Some(Decimal(n))
    case _ => None
  }

  /** Equal up to member order, undefined members, and big integers read as their decimal strings. */
  predicate Equivalent(a: Json, b: Json)
    decreases a
  {
    if a.Array? then
      b.Array? && |a.items| == |b.items| && forall i | 0 <= i < |a.items| :: Equivalent(a.items[i], b.items[i])
    else if a.Object? then
      && b.Object?
      && (forall j | 0 <= j < |b.members| && b.members[j].Defined? :: b.members[j].key in DefinedKeys(a.members))
      && (forall i | 0 <= i < |a.members| && a.members[i].Defined? ::
            && a.members[i].key in DefinedKeys(b.members)
            && Equivalent(a.members[i].value, b.members[MemberIndex(b.members, a.members[i].key)].value))
    else if TextOf(a).Some? then TextOf(b) == TextOf(a)
    else a == b
  }

  lemma SameKeys(a: seq<Member>, b: seq<Member>)
    requires UniqueKeys(a) && UniqueKeys(b)
    ensures SortKeys(DefinedKeys(a)) == SortKeys(DefinedKeys(b))
            <==> forall k :: k in DefinedKeys(a) <==> k in DefinedKeys(b)
  {
    DefinedKeysAreDistinct(a);
    DefinedKeysAreDistinct(b);
    SortingSorts(DefinedKeys(a));
    SortingSorts(DefinedKeys(b));
    if forall k :: k in DefinedKeys(a) <==> k in DefinedKeys(b) {
      SortedListingIsUnique(SortKeys(DefinedKeys(a)), SortKeys(DefinedKeys(b)));
    } else {
      var k :| !(k in DefinedKeys(a) <==> k in DefinedKeys(b));
      assert !(k in SortKeys(DefinedKeys(a)) <==> k in SortKeys(DefinedKeys(b)));
    }
  }

  lemma {:induction false} EquivalentMeansSameNormal(a: Json, b: Json)
    requires WellFormed(a) && WellFormed(b)
    ensures Equivalent(a, b) <==> Normal(a) == Normal(b)
    decreases a
  {
    match a
    case Array(items) =>
      if b.Array? && |items| == |b.items| {
        ArraysAgree(items, b.items);
      } else if b.Array? {
        assert |Normal(a).items| != |Normal(b).items|;
      }
    case Object(members) =>
      if b.Object? {
        ObjectsAgree(members, b.members);
      }
    case _ =>
  }

  lemma ArraysAgree(a: seq<Json>, b: seq<Json>)
    requires |a| == |b| && WellFormed(Array(a)) && WellFormed(Array(b))
    ensures Equivalent(Array(a), Array(b)) <==> Normal(Array(a)) == Normal(Array(b))
    decreases a
  {
    var x, y := Normal(Array(a)).items, Normal(Array(b)).items;
    forall i | 0 <= i < |a| ensures Equivalent(a[i], b[i]) <==> x[i] == y[i] {
      EquivalentMeansSameNormal(a[i], b[i]);
    }
    assert x == y <==> forall i | 0 <= i < |x| :: x[i] == y[i];
  }

  function ValueAt(members: seq<Member>, key: Text): Json
    requires key in DefinedKeys(members)
  {
    members[MemberIndex(members, key)].value
  }

  predicate SameKeySet(a: seq<Member>, b: seq<Member>) {
    SortKeys(DefinedKeys(a)) == SortKeys(DefinedKeys(b))
  }

  /** Objects are equivalent when they define the same keys, with equivalent values. */
  lemma ObjectEquivalence(a: seq<Member>, b: seq<Member>)
    requires UniqueKeys(a) && UniqueKeys(b)
    ensures Equivalent(Object(a), Object(b))
            <==> SameKeySet(a, b)
                 && forall k | k in DefinedKeys(a) && k in DefinedKeys(b) :: Equivalent(ValueAt(a, k), ValueAt(b, k))
  {
    SameKeys(a, b);
    if Equivalent(Object(a), Object(b)) {
      forall k ensures k in DefinedKeys(a) <==> k in DefinedKeys(b) {
        if k in DefinedKeys(a) {
          assert a[MemberIndex(a, k)].Defined?;
        }
      }
      forall k | k in DefinedKeys(a) && k in DefinedKeys(b) ensures Equivalent(ValueAt(a, k), ValueAt(b, k)) {
        var i := MemberIndex(a, k);
        assert a[i].Defined? && a[i].key == k;
      }
    }
    if SameKeySet(a, b)
       && forall k | k in DefinedKeys(a) && k in DefinedKeys(b) :: Equivalent(ValueAt(a, k), ValueAt(b, k)) {
      forall i | 0 <= i < |a| && a[i].Defined?
        ensures a[i].key in DefinedKeys(b)
        ensures Equivalent(a[i].value, ValueAt(b, a[i].key))
      {
        assert a[i].key in DefinedKeys(a);
        assert MemberIndex(a, a[i].key) == i;
        assert Equivalent(ValueAt(a, a[i].key), ValueAt(b, a[i].key));
      }
      forall j | 0 <= j < |b| && b[j].Defined? ensures b[j].key in DefinedKeys(a) {
        assert b[j].key in DefinedKeys(b);
      }
    }
  }

  /** Their normal forms are equal under the same condition. */
  lemma ObjectNormals(a: seq<Member>, b: seq<Member>)
    ensures Normal(Object(a)) == Normal(Object(b))
            <==> SameKeySet(a, b)
                 && forall k | k in DefinedKeys(a) && k in DefinedKeys(b) ::
                      Normal(ValueAt(a, k)) == Normal(ValueAt(b, k))
  {
    var x, y := Normal(Object(a)).entries, Normal(Object(b)).entries;
    var ka, kb := SortKeys(DefinedKeys(a)), SortKeys(DefinedKeys(b));
    forall n | 0 <= n < |ka| ensures x[n] == Entry(ka[n], Normal(ValueAt(a, ka[n]))) {
    }
    forall n | 0 <= n < |kb| ensures y[n] == Entry(kb[n], Normal(ValueAt(b, kb[n]))) {
    }
    if x == y {
      assert |ka| == |kb|;
      forall n | 0 <= n < |ka| ensures ka[n] == kb[n] {
        assert x[n].key == y[n].key;
      }
      assert ka == kb;
      forall k | k in DefinedKeys(a) && k in DefinedKeys(b) ensures Normal(ValueAt(a, k)) == Normal(ValueAt(b, k)) {
        assert k in ka;
        var n :| 0 <= n < |ka| && ka[n] == k;
        assert x[n].value == y[n].value;
      }
    }
    if SameKeySet(a, b)
       && forall k | k in DefinedKeys(a) && k in DefinedKeys(b) :: Normal(ValueAt(a, k)) == Normal(ValueAt(b, k)) {
      forall n | 0 <= n < |x| ensures x[n] == y[n] {
        assert ka[n] in ka && ka[n] in kb;
      }
    }
  }

  lemma ObjectsAgree(a: seq<Member>, b: seq<Member>)
    requires WellFormed(Object(a)) && WellFormed(Object(b))
    ensures Equivalent(Object(a), Object(b)) <==> Normal(Object(a)) == Normal(Object(b))
    decreases a
  {
    ObjectEquivalence(a, b);
    ObjectNormals(a, b);
    forall k | k in DefinedKeys(a) && k in DefinedKeys(b)
      ensures Equivalent(ValueAt(a, k), ValueAt(b, k)) <==> Normal(ValueAt(a, k)) == Normal(ValueAt(b, k))
    {
      EquivalentMeansSameNormal(ValueAt(a, k), ValueAt(b, k));
    }
  }

  /** Two values print to the same canonical string exactly when they are equivalent. */
  lemma PrintedAlikeExactlyWhenEquivalent(a: Json, b: Json)
    requires WellFormed(a) && WellFormed(b)
    ensures StableStringify(a) == StableStringify(b) <==> Equivalent(a, b)
  {
    EquivalentMeansSameNormal(a, b);
    ParserInvertsPrinter(a);
    ParserInvertsPrinter(b);
    if Normal(a) == Normal(b) {
      PrintsNormalValue(a);
      PrintsNormalValue(b);
    }
  }
}
