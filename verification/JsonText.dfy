/**
 * The encoded text of a summary, octet by octet, and that the sizes of `Json` are its length.
 */
module JsonText {
  import opened Json

  type Octets = seq<nat>

  /** A hexadecimal digit in lower case. */
  function Hex(d: nat): nat
    requires d < 16
  {
    if d < 10 then 0x30 + d else 0x57 + d
  }

  /** One character in UTF-8, section 3 of RFC 3629. */
  function Utf8(c: char): Octets {
    var n := c as int;
    if n < 0x80 then [n]
    else if n < 0x800 then [0xC0 + n / 64, 0x80 + n % 64]
    else if n < 0x10000 then [0xE0 + n / 4096, 0x80 + n / 64 % 64, 0x80 + n % 64]
    else [0xF0 + n / 262144, 0x80 + n / 4096 % 64, 0x80 + n / 64 % 64, 0x80 + n % 64]
  }

  /** One character inside a JSON string, section 7 of RFC 8259; only what must be escaped is. */
  function CharText(c: char): Octets {
    match c
    case '\"' => [0x5C, 0x22]
    case '\\' => [0x5C, 0x5C]
    case '\n' => [0x5C, 0x6E]
    case '\r' => [0x5C, 0x72]
    case '\t' => [0x5C, 0x74]
    case _ =>
      var n := c as int;
      if n == 8 then [0x5C, 0x62]
      else if n == 12 then [0x5C, 0x66]
      else if n < 0x20 then [0x5C, 0x75, 0x30, 0x30, Hex(n / 16), Hex(n % 16)]
      else Utf8(c)
  }

  function CharsText(s: string): Octets {
    if s == [] then [] else CharText(s[0]) + CharsText(s[1..])
  }

  /** A string in quotes. */
  function StringText(s: string): Octets {
    [0x22] + CharsText(s) + [0x22]
  }

  /** The text of a value, given those of the scalars; separators are ", " and ": ". */
  function Text(scalar: Json -> Octets, v: Json): Octets {
    match v
    case Str(s) => StringText(s)
    case Scalar(_, _) => scalar(v)
    case List(items) => [0x5B] + ItemsText(scalar, items) + [0x5D]
    case Dict(entries) => [0x7B] + EntriesText(scalar, entries) + [0x7D]
  }

  function ItemsText(scalar: Json -> Octets, items: seq<Json>): Octets {
    if items == [] then []
    else if |items| == 1 then Text(scalar, items[0])
    else Text(scalar, items[0]) + [0x2C, 0x20] + ItemsText(scalar, items[1..])
  }

  function EntryText(scalar: Json -> Octets, e: Entry): Octets {
    StringText(e.key) + [0x3A, 0x20] + Text(scalar, e.value)
  }

  function EntriesText(scalar: Json -> Octets, entries: seq<Entry>): Octets {
    if entries == [] then []
    else if |entries| == 1 then EntryText(scalar, entries[0])
    else EntryText(scalar, entries[0]) + [0x2C, 0x20] + EntriesText(scalar, entries[1..])
  }

  lemma {:induction false} CharsLength(s: string)
    ensures |CharsText(s)| == CharsSize(s)
  {
    if s != [] {
      CharLength(s[0]);
      CharsLength(s[1..]);
    }
  }

  lemma CharLength(c: char)
    ensures |CharText(c)| == CharSize(c)
  {
  }

  /** The scalars take as many octets as they say. */
  ghost predicate Sized(scalar: Json -> Octets) {
    forall v: Json :: v.Scalar? ==> |scalar(v)| == v.bytes
  }

  /** The size of a value is the length of its text. */
  lemma {:induction false} TextLength(scalar: Json -> Octets, v: Json)
    requires Sized(scalar)
    ensures |Text(scalar, v)| == Size(v)
    decreases v, 1
  {
    match v
    case Str(s) => CharsLength(s);
    case Scalar(_, _) =>
    case List(items) => ItemsLength(scalar, items);
    case Dict(entries) => EntriesLength(scalar, entries);
  }

  lemma DictLength(scalar: Json -> Octets, d: seq<Entry>)
    requires Sized(scalar)
    ensures |Text(scalar, Dict(d))| == DictSize(d)
  {
    TextLength(scalar, Dict(d));
  }

  lemma {:induction false} ItemsLength(scalar: Json -> Octets, items: seq<Json>)
    requires Sized(scalar)
    ensures |ItemsText(scalar, items)| == ItemsSize(items)
    decreases items, 0
  {
    if items != [] {
      TextLength(scalar, items[0]);
      ItemsLength(scalar, items[1..]);
    }
  }

  lemma {:induction false} EntriesLength(scalar: Json -> Octets, entries: seq<Entry>)
    requires Sized(scalar)
    ensures |EntriesText(scalar, entries)| == EntriesSize(entries)
    decreases entries, 0
  {
    if entries != [] {
      CharsLength(entries[0].key);
      TextLength(scalar, entries[0].value);
      EntriesLength(scalar, entries[1..]);
    }
  }
}
