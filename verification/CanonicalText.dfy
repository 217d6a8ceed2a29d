/**
  The canonical text itself: in which order members stand, how every code unit is escaped and every integer written,
  and how documents are bracketed and separated.
 */
module CanonicalText {
  import opened Wrappers
  import opened JsonText
  import opened StableJson

  // ---- the order of members

  /** The default order of strings: a proper prefix comes first, else the smaller unit where they first differ. */
  predicate Ascends(a: Text, b: Text) {
    || (|a| < |b| && a == b[..|a|])
    || exists k :: 0 <= k < |a| && k < |b| && a[..k] == b[..k] && a[k] < b[k]
  }

  lemma {:induction false} BeforeAscends(a: Text, b: Text)
    requires Before(a, b)
    ensures Ascends(a, b)
    decreases |a|
  {
    if a != [] && a[0] == b[0] {
      BeforeAscends(a[1..], b[1..]);
      if |a| < |b| && a[1..] == b[1..][..|a| - 1] {
        assert a == [a[0]] + a[1..] && b[..|a|] == [b[0]] + b[1..][..|a| - 1];
      } else {
        var k :| 0 <= k < |a| - 1 && k < |b| - 1 && a[1..][..k] == b[1..][..k] && a[1..][k] < b[1..][k];
        assert a[..k + 1] == [a[0]] + a[1..][..k] && b[..k + 1] == [b[0]] + b[1..][..k];
        assert a[k + 1] < b[k + 1];
      }
    } else if a != [] {
      assert a[..0] == b[..0] && a[0] < b[0];
    }
  }

  predicate Ascending(entries: seq<Entry>) {
    forall i, j | 0 <= i < j < |entries| :: Ascends(entries[i].key, entries[j].key)
  }

  /** Every object inside lists its members in ascending order. */
  predicate AllAscending(c: Canon) {
    match c
    case CArray(items) => forall i | 0 <= i < |items| :: AllAscending(items[i])
    case CObject(entries) => Ascending(entries) && forall i | 0 <= i < |entries| :: AllAscending(entries[i].value)
    case _ => true
  }

  lemma {:induction false} SortedKeysAscend(keys: seq<Text>, i: nat, j: nat)
    requires Sorted(keys) && i < j < |keys|
    ensures Ascends(keys[i], keys[j])
    decreases |keys|
  {
    if i == 0 {
      assert keys[j] == keys[1..][j - 1];
      BeforeAscends(keys[0], keys[j]);
    } else {
      SortedKeysAscend(keys[1..], i - 1, j - 1);
    }
  }

  /** What is printed lists the members of every object in ascending code-unit order of their keys. */
  lemma {:induction false} PrintedMembersAscend(v: Json)
    requires WellFormed(v)
    ensures AllAscending(Normal(v))
    decreases v
  {
    match v
    case Array(items) =>
      forall i | 0 <= i < |items| ensures AllAscending(Normal(items[i])) {
        PrintedMembersAscend(items[i]);
      }
    case Object(members) =>
      var keys := SortKeys(DefinedKeys(members));
      var entries := Normal(v).entries;
      DefinedKeysAreDistinct(members);
      SortingSorts(DefinedKeys(members));
      forall i, j | 0 <= i < j < |entries| ensures Ascends(entries[i].key, entries[j].key) {
        SortedKeysAscend(keys, i, j);
      }
      forall i | 0 <= i < |entries| ensures AllAscending(entries[i].value) {
        PrintedMembersAscend(members[MemberIndex(members, keys[i])].value);
      }
    case _ =>
  }

  // ---- scalars

  /** Lower-case hexadecimal, as a unit. */
  predicate IsHexOf(u: Unit, d: nat) {
    (d < 10 && u == 0x30 + d) || (10 <= d < 16 && u == 0x61 + (d - 10))
  }

  /** Every code unit of a string, as the standard printer writes it outside a surrogate pair. */
  lemma UnitsAreEscapedAsStandard(u: Unit)
    ensures
      var t := EscapeUnit(u);
      match u
      case 0x22 => t == [0x5c, 0x22]
      case 0x5c => t == [0x5c, 0x5c]
      case 0x08 => t == [0x5c, 0x62]
      case 0x09 => t == [0x5c, 0x74]
      case 0x0a => t == [0x5c, 0x6e]
      case 0x0c => t == [0x5c, 0x66]
      case 0x0d => t == [0x5c, 0x72]
      case _ =>
        if u < 0x20 || 0xd800 <= u <= 0xdfff then
          && |t| == 6 && t[0] == 0x5c && t[1] == 0x75
          && IsHexOf(t[2], u / 0x1000) && IsHexOf(t[3], u / 0x100 % 16)
          && IsHexOf(t[4], u / 0x10 % 16) && IsHexOf(t[5], u % 16)
        else t == [u]
  {
  }

  /** A string stands in quotes, unit by unit, but for surrogate pairs, which stand as they are. */
  lemma {:induction false} StringsArePrintedUnitByUnit(s: Text)
    ensures Quoted([]) == [0x22, 0x22]
    ensures
      s != [] ==>
        var pair := |s| > 1 && 0xd800 <= s[0] <= 0xdbff && 0xdc00 <= s[1] <= 0xdfff;
        EscapeText(s) == if pair then [s[0], s[1]] + EscapeText(s[2..]) else EscapeUnit(s[0]) + EscapeText(s[1..])
    ensures Quoted(s) == [0x22] + EscapeText(s) + [0x22]
  {
    assert EscapeText([]) == [];
  }

  /** What decimal digits say, read from the left. */
  function Reads(t: Text): int
    decreases |t|
  {
    if t == [] then 0
    else
      var digit: int := t[|t| - 1];
      Reads(t[..|t| - 1]) * 10 + digit - 0x30
  }

  /** An integer is written in decimal digits without a leading zero, after a minus sign when it is negative. */
  lemma {:induction false} IntegersAreWrittenInDecimal(n: nat)
    ensures
      var t := Digits(n);
      && Reads(t) == n && (forall i | 0 <= i < |t| :: 0x30 <= t[i] <= 0x39)
      && (t[0] == 0x30 ==> t == [0x30])
    ensures Decimal(n) == Digits(n)
    ensures n > 0 ==> Decimal(0 - n) == [0x2d] + Digits(n)
    decreases n
  {
    if n >= 10 {
      IntegersAreWrittenInDecimal(n / 10);
      assert Digits(n)[..|Digits(n)| - 1] == Digits(n / 10);
    } else {
      assert [0x30 + n][..0] == [];
      assert Reads([0x30 + n]) == Reads([]) * 10 + n;
    }
  }

  // ---- documents

  /** Parts with a comma between each two. */
  function Separated(parts: seq<Text>): Text {
    if parts == [] then []
    else if |parts| == 1 then parts[0]
    else Separated(parts[..|parts| - 1]) + [0x2c] + parts[|parts| - 1]
  }

  lemma {:induction false} JoinSeparates(parts: seq<Text>)
    ensures Join(parts) == Separated(parts)
    decreases |parts|
  {
    if |parts| == 2 {
      assert parts[1..] == [parts[1]] && parts[..1] == [parts[0]];
    } else if |parts| > 2 {
      var last := |parts| - 1;
      var middle := parts[1..][..last - 1];
      JoinSeparates(parts[1..]);
      JoinSeparates(parts[..last]);
      JoinSeparates(middle);
      assert parts[..last][1..] == middle;
      Assoc(parts[0] + [0x2c], Separated(middle) + [0x2c], parts[last]);
      Assoc(parts[0] + [0x2c], Separated(middle), [0x2c]);
    }
  }

  /** Keywords, numbers and strings as such; big integers as strings. */
  lemma ScalarsAreWritten(v: Json)
    ensures v.Null? ==> StableStringify(v) == [0x6e, 0x75, 0x6c, 0x6c]
    ensures v.Bool? ==>
              StableStringify(v) == if v.flag then [0x74, 0x72, 0x75, 0x65] else [0x66, 0x61, 0x6c, 0x73, 0x65]
    ensures v.Number? ==> StableStringify(v) == Decimal(v.number)
    ensures v.BigInt? ==> StableStringify(v) == [0x22] + Decimal(v.big) + [0x22]
    ensures v.String? ==> StableStringify(v) == Quoted(v.text)
  {
    if v.BigInt? {
      if v.big < 0 {
        IntegersAreWrittenInDecimal(0 - v.big);
      } else {
        IntegersAreWrittenInDecimal(v.big);
      }
      PlainTextStands(Decimal(v.big));
    }
  }

  lemma {:induction false} PlainTextStands(t: Text)
    requires forall i | 0 <= i < |t| :: 0x2d <= t[i] <= 0x39
    ensures EscapeText(t) == t
    decreases |t|
  {
    if t != [] {
      PlainTextStands(t[1..]);
      assert t == [t[0]] + t[1..];
    }
  }

  /** An array is its printed items between brackets, in order. */
  lemma ArraysAreBracketed(items: seq<Json>, parts: seq<Text>)
    requires |parts| == |items| && forall i | 0 <= i < |items| :: parts[i] == StableStringify(items[i])
    ensures StableStringify(Array(items)) == [0x5b] + Separated(parts) + [0x5d]
  {
    assert parts == seq(|items|, i requires 0 <= i < |items| => StableStringify(items[i]));
    JoinSeparates(parts);
  }

  /** An object is its defined members between braces, each a quoted key, a colon and the printed value. */
  lemma ObjectsAreBraced(members: seq<Member>, parts: seq<Text>)
    requires UniqueKeys(members)
    requires
      var entries := Normal(Object(members)).entries;
      && |parts| == |entries|
      && forall i | 0 <= i < |entries| :: parts[i] == Quoted(entries[i].key) + [0x3a] + Render(entries[i].value)
    ensures StableStringify(Object(members)) == [0x7b] + Separated(parts) + [0x7d]
  {
    PrintsNormalValue(Object(members));
    RenderedObject(Normal(Object(members)).entries, parts);
  }

  lemma RenderedObject(entries: seq<Entry>, parts: seq<Text>)
    requires |parts| == |entries|
    requires forall i | 0 <= i < |entries| :: parts[i] == Quoted(entries[i].key) + [0x3a] + Render(entries[i].value)
    ensures Render(CObject(entries)) == [0x7b] + Separated(parts) + [0x7d]
  {
    assert parts == RenderEntries(entries);
    JoinSeparates(parts);
  }

  /** The entries of an object are exactly its defined members, with their normalized values. */
  lemma EntriesAreDefinedMembers(members: seq<Member>)
    requires UniqueKeys(members)
    ensures
      var entries := Normal(Object(members)).entries;
      && (forall e | e in entries :: exists i | 0 <= i < |members| ::
            members[i].Defined? && members[i].key == e.key && Normal(members[i].value) == e.value)
      && (forall i | 0 <= i < |members| && members[i].Defined? ::
            Entry(members[i].key, Normal(members[i].value)) in entries)
  {
    var entries := Normal(Object(members)).entries;
    var keys := SortKeys(DefinedKeys(members));
    forall i | 0 <= i < |members| && members[i].Defined?
      ensures Entry(members[i].key, Normal(members[i].value)) in entries
    {
      assert members[i].key in keys;
      var k :| 0 <= k < |keys| && keys[k] == members[i].key;
      var j := MemberIndex(members, keys[k]);
      assert j == i;
      assert entries[k] == Entry(members[i].key, Normal(members[i].value));
    }
  }
}
