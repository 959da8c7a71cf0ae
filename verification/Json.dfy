/**
 * The values a result summary is made of, and the number of bytes of their JSON encoding with
 * `ensure_ascii=False` and the default separators, in UTF-8.
 */
module Json {
  /**
   * A summary value. `Scalar` stands for every value that is neither a string, a list nor a
   * dict: its `str()`, and the bytes of its encoding. Dict entries are in insertion order.
   */
  datatype Json =
    | Str(s: string)
    | Scalar(text: string, bytes: nat)
    | List(items: seq<Json>)
    | Dict(entries: seq<Entry>)

  datatype Entry = Entry(key: string, value: Json)

  /** UTF-8 length of one character, section 3 of RFC 3629. */
  function Utf8Size(c: char): nat {
    if c as int < 0x80 then 1
    else if c as int < 0x800 then 2
    else if c as int < 0x10000 then 3
    else 4
  }

  /** Bytes of one character inside a JSON string: escapes of section 7 of RFC 8259, else UTF-8. */
  function CharSize(c: char): (n: nat)
    ensures 1 <= n <= 6
  {
    if c in {'\"', '\\', '\n', '\r', '\t', 8 as char, 12 as char} then 2
    else if c as int < 0x20 then 6
    else Utf8Size(c)
  }

  function CharsSize(s: string): nat {
    if s == [] then 0 else CharSize(s[0]) + CharsSize(s[1..])
  }

  /** Bytes of a quoted string. */
  function StringSize(s: string): nat {
    2 + CharsSize(s)
  }

  /** Bytes of a value; separators are ", " and ": ". */
  function Size(v: Json): nat {
    match v
    case Str(s) => StringSize(s)
    case Scalar(_, n) => n
    case List(items) => 2 + ItemsSize(items)
    case Dict(entries) => 2 + EntriesSize(entries)
  }

  function ItemsSize(items: seq<Json>): nat {
    if items == [] then 0
    else Size(items[0]) + (if |items| > 1 then 2 else 0) + ItemsSize(items[1..])
  }

  function EntriesSize(entries: seq<Entry>): nat {
    if entries == [] then 0
    else
      StringSize(entries[0].key) + 2 + Size(entries[0].value)
      + (if |entries| > 1 then 2 else 0) + EntriesSize(entries[1..])
  }

  /** Bytes of a whole summary. */
  function DictSize(d: seq<Entry>): nat {
    2 + EntriesSize(d)
  }

  lemma {:induction false} CharsSizeConcat(s: string, t: string)
    ensures CharsSize(s + t) == CharsSize(s) + CharsSize(t)
  {
    if s == [] {
      assert s + t == t;
    } else {
      assert (s + t)[1..] == s[1..] + t;
      CharsSizeConcat(s[1..], t);
    }
  }

  lemma {:induction false} CharsSizeBounds(s: string)
    ensures |s| <= CharsSize(s) <= 6 * |s|
  {
    if s != [] {
      CharsSizeBounds(s[1..]);
    }
  }

  lemma {:induction false} EntriesSizeConcat(d: seq<Entry>, e: seq<Entry>)
    ensures EntriesSize(d + e) == EntriesSize(d) + EntriesSize(e) + if d != [] && e != [] then 2 else 0
  {
    if d == [] {
      assert d + e == e;
    } else {
      assert (d + e)[1..] == d[1..] + e;
      EntriesSizeConcat(d[1..], e);
    }
  }
}
