/**
 The text in which two hosts tell each other about a queue pair, and its parser.

 Strings are sequences of one-byte characters.
*/
module QpInfo {
  import opened Common

  type u8 = x: int | 0 <= x < 0x100
  type u16 = x: int | 0 <= x < 0x1_0000
  type u32 = x: int | 0 <= x < 0x1_0000_0000

  const GID_BYTES := 16
  const MAC_BYTES := 6
  /** MAX_HOSTNAME_LEN and MAX_NIC_NAME_LEN */
  const NAME_BYTES := 64
  const INT_LIMIT: int := 0x8000_0000

  // ---------- numbers as text ----------

  predicate IsDigit(c: char) {
    '0' <= c <= '9'
  }

  function DigitChar(d: nat): (c: char)
    requires d < 10
    ensures IsDigit(c)
  {
    '0' + d as char
  }

  /** `std::to_string` */
  function Decimal(n: nat): string {
    if n < 10 then [DigitChar(n)] else Decimal(n / 10) + [DigitChar(n % 10)]
  }

  predicate IsSpace(c: char) {
    c == ' ' || 9 as char <= c <= 13 as char
  }

  function SkipSpace(s: string): string {
    if s != "" && IsSpace(s[0]) then SkipSpace(s[1..]) else s
  }

  function Digits(s: string): (ds: string)
    ensures forall c | c in ds :: IsDigit(c)
  {
    if s != "" && IsDigit(s[0]) then [s[0]] + Digits(s[1..]) else ""
  }

  function DigitValue(c: char): nat
    requires IsDigit(c)
  {
    (c - '0') as nat
  }

  function Number(ds: string): nat
    requires forall c | c in ds :: IsDigit(c)
  {
    if ds == "" then 0
    else
      assert ds[|ds| - 1] in ds;
      10 * Number(ds[..|ds| - 1]) + DigitValue(ds[|ds| - 1])
  }

  /** `std::stoi`: None stands for the exceptions it throws. What follows the number is ignored. */
  function Stoi(s: string): Option<int> {
    var t := SkipSpace(s);
    var signed := t != "" && (t[0] == '-' || t[0] == '+');
    var ds := Digits(if signed then t[1..] else t);
    if ds == "" then None
    else
      var x := if signed && t[0] == '-' then 0 - Number(ds) else Number(ds);
      if -INT_LIMIT <= x < INT_LIMIT then Some(x) else None
  }

  lemma {:induction false} DecimalIsDigits(n: nat)
    ensures Decimal(n) != "" && forall c | c in Decimal(n) :: IsDigit(c)
    ensures Number(Decimal(n)) == n
    ensures |Decimal(n)| > 1 ==> Decimal(n)[0] != '0'
  {
    if n >= 10 {
      DecimalIsDigits(n / 10);
      var s := Decimal(n);
      assert s[..|s| - 1] == Decimal(n / 10);
    } else {
      assert Decimal(n)[..0] == "";
    }
  }

  lemma {:induction false} AllDigits(s: string)
    requires forall c | c in s :: IsDigit(c)
    ensures Digits(s) == s
  {
    if s == "" {
    } else {
      AllDigits(s[1..]);
    }
  }

  /** Reading back a printed number works below 2^31 and throws from there on. */
  lemma StoiOfDecimal(n: nat)
    ensures Stoi(Decimal(n)) == if n < INT_LIMIT then Some(n) else None
  {
    DecimalIsDigits(n);
    AllDigits(Decimal(n));
    assert Decimal(n)[0] in Decimal(n);
  }

  lemma {:induction false} SpaceSkipped(pad: string, s: string)
    requires (forall c | c in pad :: IsSpace(c)) && (s != "" ==> !IsSpace(s[0]))
    ensures SkipSpace(pad + s) == s
  {
    if pad == "" {
      assert pad + s == s;
    } else {
      assert pad[0] in pad && (pad + s)[1..] == pad[1..] + s;
      SpaceSkipped(pad[1..], s);
    }
  }

  lemma {:induction false} DigitsThenRest(ds: string, rest: string)
    requires (forall c | c in ds :: IsDigit(c)) && (rest != "" ==> !IsDigit(rest[0]))
    ensures Digits(ds + rest) == ds
  {
    if ds == "" {
      assert ds + rest == rest;
    } else {
      assert ds[0] in ds && (ds + rest)[1..] == ds[1..] + rest;
      DigitsThenRest(ds[1..], rest);
    }
  }

  /** What `stoi` accepts: space, a sign, digits, and then anything that is no digit. */
  lemma StoiReads(pad: string, sign: string, n: nat, rest: string)
    requires (forall c | c in pad :: IsSpace(c)) && sign in ["", "+", "-"] && (rest != "" ==> !IsDigit(rest[0]))
    ensures var x := if sign == "-" then 0 - n else n;
            Stoi(pad + (sign + (Decimal(n) + rest))) == if -INT_LIMIT <= x < INT_LIMIT then Some(x) else None
  {
    DecimalIsDigits(n);
    var d := Decimal(n);
    assert d[0] in d;
    DigitsThenRest(d, rest);
    SpaceSkipped(pad, sign + (d + rest));
    if sign == "" {
      assert sign + (d + rest) == d + rest;
    } else {
      assert (sign + (d + rest))[1..] == d + rest;
    }
  }

  /** The casts to the unsigned types of the fields. */
  function ToU8(x: int): u8 {
    x % 0x100
  }

  function ToU16(x: int): u16 {
    x % 0x1_0000
  }

  function ToU32(x: int): u32 {
    x % 0x1_0000_0000
  }

  lemma CastsKeep(n: nat)
    ensures n < 0x100 ==> ToU8(n) == n
    ensures n < 0x1_0000 ==> ToU16(n) == n
    ensures n < 0x1_0000_0000 ==> ToU32(n) == n
  {
  }

  // ---------- reading up to a delimiter ----------

  datatype Piece = Piece(before: string, after: string)

  /** `std::getline` with a delimiter: what it returns and what it leaves in the stream. */
  function Cut(s: string, d: char): (p: Piece)
    ensures d !in p.before
    ensures |p.after| <= |s| && (s != "" ==> |p.after| < |s|)
    ensures forall c | c in p.before || c in p.after :: c in s
  {
    if s == "" then Piece("", "")
    else if s[0] == d then Piece("", s[1..])
    else
      var p := Cut(s[1..], d);
      Piece([s[0]] + p.before, p.after)
  }

  lemma {:induction false} CutPrefix(a: string, b: string, d: char)
    requires d !in a
    ensures Cut(a + b, d) == Piece(a + Cut(b, d).before, Cut(b, d).after)
  {
    if a == "" {
      assert a + b == b;
    } else {
      assert (a + b)[1..] == a[1..] + b;
      CutPrefix(a[1..], b, d);
      assert [a[0]] + (a[1..] + Cut(b, d).before) == a + Cut(b, d).before;
    }
  }

  lemma CutAtDelimiter(a: string, b: string, d: char)
    requires d !in a
    ensures Cut(a + [d] + b, d) == Piece(a, b)
  {
    CutPrefix(a, [d] + b, d);
    assert a + ([d] + b) == a + [d] + b;
    assert ([d] + b)[1..] == b;
  }

  lemma CutAtEnd(a: string, d: char)
    requires d !in a
    ensures Cut(a, d) == Piece(a, "")
  {
    CutPrefix(a, "", d);
    assert a + "" == a;
  }

  // ---------- names ----------

  /** The string a character array or a `std::string` holds when read as a C string. */
  function CString(s: string): (t: string)
    ensures |t| <= |s| && '\0' !in t
    ensures |t| < |s| ==> s[|t|] == '\0'
    ensures t == s[..|t|]
  {
    if s == "" || s[0] == '\0' then "" else [s[0]] + CString(s[1..])
  }

  /** What `strncpy` writes into `n` characters: as much of the C string as fits, then NULs. */
  function Padded(c: string, n: nat): (a: string)
    ensures |a| == n
    ensures forall k :: 0 <= k < n ==> a[k] == if k < |c| then c[k] else '\0'
  {
    if |c| < n then c + seq(n - |c|, k => '\0') else c[..n]
  }

  /** What a name array holds after `strncpy` and the final terminator. */
  function NameOf(value: string): (a: string)
    ensures |a| == NAME_BYTES && a[NAME_BYTES - 1] == '\0'
  {
    Padded(CString(value), NAME_BYTES - 1) + ['\0']
  }

  lemma {:induction false} CStringOf(t: string, pad: string)
    requires '\0' !in t && (pad == "" || pad[0] == '\0')
    ensures CString(t + pad) == t
  {
    if t == "" {
      assert t + pad == pad;
    } else {
      assert (t + pad)[1..] == t[1..] + pad;
      CStringOf(t[1..], pad);
    }
  }

  lemma NameHolds(value: string)
    ensures var c := CString(value);
      CString(NameOf(value)) == if |c| < NAME_BYTES then c else c[..NAME_BYTES - 1]
  {
    var c := CString(value);
    var kept := if |c| < NAME_BYTES then c else c[..NAME_BYTES - 1];
    var pad := seq(NAME_BYTES - |kept|, k => '\0');
    assert NameOf(value) == kept + pad;
    CStringOf(kept, pad);
  }

  /** Where the C string goes on and where it has ended. */
  lemma CStringAt(s: string, k: nat)
    requires k <= |CString(s)|
    ensures k < |CString(s)| ==> k < |s| && s[k] == CString(s)[k] != '\0'
    ensures k == |CString(s)| < |s| ==> s[k] == '\0'
  {
    if k < |CString(s)| {
      assert CString(s)[k] in CString(s);
    }
  }

  // ---------- the record ----------

  /** The fields of a QPInfo at one moment. */
  datatype Info = Info(
    qpNum: u32, lid: u16, gid: seq<u8>, gidTableIndex: u8, mac: seq<u8>, mtu: u32,
    hostname: string, nicName: string, isInitialized: bool)
  {
    /** The arrays have their sizes and the names are terminated. */
    predicate Valid() {
      |gid| == GID_BYTES && |mac| == MAC_BYTES &&
      |hostname| == NAME_BYTES && hostname[NAME_BYTES - 1] == '\0' &&
      |nicName| == NAME_BYTES && nicName[NAME_BYTES - 1] == '\0'
    }
  }

  function ListText(l: seq<u8>): string {
    if l == [] then "" else ListText(l[..|l| - 1]) + Decimal(l[|l| - 1]) + ","
  }

  function FlagText(b: bool): string {
    if b then "1" else "0"
  }

  datatype FieldName =
    QpNum | Lid | Gid | GidTableIndex | Mac | Mtu | Hostname | NicName | IsInitialized | Unknown

  function Spelt(f: FieldName): string {
    match f
    case QpNum => "qp_num"
    case Lid => "lid"
    case Gid => "gid"
    case GidTableIndex => "gid_table_index"
    case Mac => "mac"
    case Mtu => "mtu"
    case Hostname => "hostname"
    case NicName => "nic_name"
    case IsInitialized => "is_initialized"
    case Unknown => ""
  }

  function Field(f: FieldName, value: string): string {
    Spelt(f) + ":" + value + ";"
  }

  /** The names and the flag, which end the text. */
  function Tail(v: Info): string {
    Field(Hostname, CString(v.hostname)) + (
      Field(NicName, CString(v.nicName)) + (Spelt(IsInitialized) + ":" + FlagText(v.isInitialized)))
  }

  function Text(v: Info): string {
    Field(QpNum, Decimal(v.qpNum)) + (
      Field(Lid, Decimal(v.lid)) + (
        Field(Gid, ListText(v.gid)) + (
          Field(GidTableIndex, Decimal(v.gidTableIndex)) + (
            Field(Mac, ListText(v.mac)) + (
              Field(Mtu, Decimal(v.mtu)) + Tail(v))))))
  }

  // ---------- the parser ----------

  /** What the record holds after parsing, and whether parsing ended in an exception. */
  datatype Parsed = Parsed(info: Info, thrown: bool)

  datatype List = List(bytes: seq<u8>, thrown: bool)

  function ReadList(bytes: seq<u8>, i: nat, s: string): (r: List)
    requires i <= |bytes|
    ensures |r.bytes| == |bytes|
    decreases |s|
  {
    if s == "" || i == |bytes| then List(bytes, false)
    else
      var p := Cut(s, ',');
      match Stoi(p.before)
      case None => List(bytes, true)
      case Some(x) => ReadList(bytes[i := ToU8(x)], i + 1, p.after)
  }

  function Key(token: string): string {
    Cut(token, ':').before
  }

  function ValueOf(token: string): string {
    Cut(Cut(token, ':').after, ':').before
  }

  function Named(key: string): FieldName {
    match key
    case "qp_num" => QpNum
    case "lid" => Lid
    case "gid" => Gid
    case "gid_table_index" => GidTableIndex
    case "mac" => Mac
    case "mtu" => Mtu
    case "hostname" => Hostname
    case "nic_name" => NicName
    case "is_initialized" => IsInitialized
    case _ => Unknown
  }

  /** What one field and its value do to the record. Keys that are not known are skipped. */
  function Assign(w: Info, field: FieldName, value: string): (r: Parsed)
    requires w.Valid()
    ensures r.info.Valid()
  {
    var number := Stoi(value);
    match field
    case QpNum =>
      if number == None then Parsed(w, true) else Parsed(w.(qpNum := ToU32(number.value)), false)
    case Lid =>
      if number == None then Parsed(w, true) else Parsed(w.(lid := ToU16(number.value)), false)
    case Gid =>
      var l := ReadList(w.gid, 0, value);
      Parsed(w.(gid := l.bytes), l.thrown)
    case GidTableIndex =>
      if number == None then Parsed(w, true) else Parsed(w.(gidTableIndex := ToU8(number.value)), false)
    case Mac =>
      var l := ReadList(w.mac, 0, value);
      Parsed(w.(mac := l.bytes), l.thrown)
    case Mtu =>
      if number == None then Parsed(w, true) else Parsed(w.(mtu := ToU32(number.value)), false)
    case Hostname => Parsed(w.(hostname := NameOf(value)), false)
    case NicName => Parsed(w.(nicName := NameOf(value)), false)
    case IsInitialized =>
      if number == None then Parsed(w, true) else Parsed(w.(isInitialized := number.value != 0), false)
    case Unknown => Parsed(w, false)
  }

  function Parse(w: Info, text: string): (r: Parsed)
    requires w.Valid()
    ensures r.info.Valid()
    decreases |text|
  {
    if text == "" then Parsed(w, false)
    else
      var p := Cut(text, ';');
      var step := Assign(w, Named(Key(p.before)), ValueOf(p.before));
      if step.thrown then step else Parse(step.info, p.after)
  }

  // ---------- what is printed is read back ----------

  predicate Plain(s: string) {
    ';' !in s && ':' !in s
  }

  lemma KeyAndValue(key: string, value: string)
    requires ':' !in key
    ensures Key(key + ":" + value) == key
    ensures ValueOf(key + ":" + value) == Cut(value, ':').before
    ensures ':' !in value ==> ValueOf(key + ":" + value) == value
  {
    CutAtDelimiter(key, value, ':');
    if ':' !in value {
      CutAtEnd(value, ':');
    }
  }

  lemma SpeltIsNamed(f: FieldName)
    requires f != Unknown
    ensures Named(Spelt(f)) == f && Plain(Spelt(f))
  {
  }

  function Then(step: Parsed, rest: string): Parsed
    requires step.info.Valid()
  {
    if step.thrown then step else Parse(step.info, rest)
  }

  /** A token that names its field and a value free of both delimiters. */
  lemma ParseField(w: Info, f: FieldName, value: string, rest: string)
    requires w.Valid() && f != Unknown && Plain(value)
    ensures Parse(w, Field(f, value) + rest) == Then(Assign(w, f, value), rest)
  {
    SpeltIsNamed(f);
    hide Assign, Spelt, Named;
    KeyAndValue(Spelt(f), value);
    var token := Spelt(f) + ":" + value;
    CutAtDelimiter(token, rest, ';');
    assert Field(f, value) + rest == token + ";" + rest;
  }

  /** The last field is not followed by a delimiter. */
  lemma ParseLast(w: Info, f: FieldName, value: string)
    requires w.Valid() && f != Unknown && Plain(value)
    ensures Parse(w, Spelt(f) + ":" + value) == Then(Assign(w, f, value), "")
  {
    SpeltIsNamed(f);
    hide Assign, Spelt, Named;
    KeyAndValue(Spelt(f), value);
    CutAtEnd(Spelt(f) + ":" + value, ';');
  }

  lemma DecimalIsPlain(n: nat)
    ensures Plain(Decimal(n)) && ',' !in Decimal(n)
  {
    DecimalIsDigits(n);
  }

  lemma {:induction false} ListIsPlain(l: seq<u8>)
    ensures Plain(ListText(l))
  {
    if l == [] {
    } else {
      ListIsPlain(l[..|l| - 1]);
      DecimalIsPlain(l[|l| - 1]);
    }
  }

  lemma {:induction false} ListTextCons(x: u8, l: seq<u8>)
    ensures ListText([x] + l) == Decimal(x) + "," + ListText(l)
    decreases |l|
  {
    if l == [] {
      assert [x] + l == [x];
      assert ListText([x][..0]) == "";
    } else {
      var k := |l| - 1;
      ListTextCons(x, l[..k]);
      assert ([x] + l)[..k + 1] == [x] + l[..k];
      assert ([x] + l)[k + 1] == l[k];
      assert Decimal(x) + "," + ListText(l[..k]) + Decimal(l[k]) + "," ==
             Decimal(x) + "," + (ListText(l[..k]) + Decimal(l[k]) + ",");
    }
  }

  lemma ReadNumber(bytes: seq<u8>, i: nat, x: u8, rest: string)
    requires i < |bytes|
    ensures ReadList(bytes, i, Decimal(x) + "," + rest) == ReadList(bytes[i := x], i + 1, rest)
  {
    DecimalIsPlain(x);
    CutAtDelimiter(Decimal(x), rest, ',');
    StoiOfDecimal(x);
    CastsKeep(x);
    hide Stoi, Decimal, Cut, ToU8;
  }

  /** A printed list is read back over whatever the array held. */
  lemma {:induction false} ReadBack(bytes: seq<u8>, l: seq<u8>, i: nat)
    requires i <= |l| == |bytes| && bytes[..i] == l[..i]
    ensures ReadList(bytes, i, ListText(l[i..])) == List(l, false)
    decreases |l| - i
  {
    hide Stoi, Decimal, Cut;
    if i == |l| {
      assert bytes == bytes[..i] && l == l[..i];
    } else {
      hide ReadList, ListText;
      var rest := l[i + 1..];
      assert l[i..] == [l[i]] + rest;
      ListTextCons(l[i], rest);
      ReadNumber(bytes, i, l[i], ListText(rest));
      ReadBack(bytes[i := l[i]], l, i + 1);
    }
  }

  // ---------- the round trip ----------

  lemma ReadQpNum(w: Info, n: u32, rest: string)
    requires w.Valid()
    ensures var r := Parse(w, Field(QpNum, Decimal(n)) + rest);
      if n < INT_LIMIT then r == Parse(w.(qpNum := n), rest) else r.thrown
  {
    hide Decimal, Stoi, Parse, Field, Plain, ToU8, ToU16, ToU32;
    CastsKeep(n);
    DecimalIsPlain(n);
    ParseField(w, QpNum, Decimal(n), rest);
    StoiOfDecimal(n);
  }

  lemma ReadMtu(w: Info, n: u32, rest: string)
    requires w.Valid()
    ensures var r := Parse(w, Field(Mtu, Decimal(n)) + rest);
      if n < INT_LIMIT then r == Parse(w.(mtu := n), rest) else r.thrown
  {
    hide Decimal, Stoi, Parse, Field, Plain, ToU8, ToU16, ToU32;
    CastsKeep(n);
    DecimalIsPlain(n);
    ParseField(w, Mtu, Decimal(n), rest);
    StoiOfDecimal(n);
  }

  lemma ReadLid(w: Info, n: u16, rest: string)
    requires w.Valid()
    ensures Parse(w, Field(Lid, Decimal(n)) + rest) == Parse(w.(lid := n), rest)
  {
    hide Decimal, Stoi, Parse, Field, Plain, ToU8, ToU16, ToU32;
    CastsKeep(n);
    DecimalIsPlain(n);
    ParseField(w, Lid, Decimal(n), rest);
    StoiOfDecimal(n);
  }

  lemma ReadIndex(w: Info, n: u8, rest: string)
    requires w.Valid()
    ensures Parse(w, Field(GidTableIndex, Decimal(n)) + rest) == Parse(w.(gidTableIndex := n), rest)
  {
    hide Decimal, Stoi, Parse, Field, Plain, ToU8, ToU16, ToU32;
    CastsKeep(n);
    DecimalIsPlain(n);
    ParseField(w, GidTableIndex, Decimal(n), rest);
    StoiOfDecimal(n);
  }

  lemma ReadGid(w: Info, l: seq<u8>, rest: string)
    requires w.Valid() && |l| == GID_BYTES
    ensures Parse(w, Field(Gid, ListText(l)) + rest) == Parse(w.(gid := l), rest)
  {
    hide Plain, ListText, Stoi, Parse, Field, ReadList;
    ListIsPlain(l);
    ParseField(w, Gid, ListText(l), rest);
    assert l[0..] == l;
    ReadBack(w.gid, l, 0);
  }

  lemma ReadMac(w: Info, l: seq<u8>, rest: string)
    requires w.Valid() && |l| == MAC_BYTES
    ensures Parse(w, Field(Mac, ListText(l)) + rest) == Parse(w.(mac := l), rest)
  {
    hide Plain, ListText, Stoi, Parse, Field, ReadList;
    ListIsPlain(l);
    ParseField(w, Mac, ListText(l), rest);
    assert l[0..] == l;
    ReadBack(w.mac, l, 0);
  }

  lemma ReadHostname(w: Info, h: string, rest: string)
    requires w.Valid() && Plain(h)
    ensures Parse(w, Field(Hostname, h) + rest) == Parse(w.(hostname := NameOf(h)), rest)
  {
    hide Stoi, Parse, Field, NameOf, Plain;
    ParseField(w, Hostname, h, rest);
  }

  lemma ReadNicName(w: Info, n: string, rest: string)
    requires w.Valid() && Plain(n)
    ensures Parse(w, Field(NicName, n) + rest) == Parse(w.(nicName := NameOf(n)), rest)
  {
    hide Stoi, Parse, Field, NameOf, Plain;
    ParseField(w, NicName, n, rest);
  }

  lemma ReadFlag(w: Info, b: bool)
    requires w.Valid()
    ensures Parse(w, Spelt(IsInitialized) + ":" + FlagText(b)) == Parsed(w.(isInitialized := b), false)
  {
    hide Decimal, Stoi, FlagText, Parse, Plain;
    var n := if b then 1 else 0;
    FlagIsDecimal(b);
    DecimalIsPlain(n);
    StoiOfDecimal(n);
    ParseLast(w, IsInitialized, FlagText(b));
    ParseNothing(w.(isInitialized := b));
  }

  lemma FlagIsDecimal(b: bool)
    ensures FlagText(b) == Decimal(if b then 1 else 0)
  {
  }

  lemma ParseNothing(w: Info)
    requires w.Valid()
    ensures Parse(w, "") == Parsed(w, false)
  {
  }

  /** The numbers that `stoi` can read back, and the names that the two delimiters leave whole. */
  predicate Fits(v: Info) {
    v.qpNum < INT_LIMIT && v.mtu < INT_LIMIT && Plain(CString(v.hostname)) && Plain(CString(v.nicName))
  }

  /** All fields agree, the names as C strings. */
  predicate Same(v: Info, r: Info) {
    r.qpNum == v.qpNum && r.lid == v.lid && r.gid == v.gid && r.gidTableIndex == v.gidTableIndex &&
    r.mac == v.mac && r.mtu == v.mtu && r.isInitialized == v.isInitialized &&
    CString(r.hostname) == CString(v.hostname) && CString(r.nicName) == CString(v.nicName)
  }

  /** The record with the space behind its names cleared. */
  function Cleared(v: Info): (r: Info)
    requires v.Valid()
    ensures r.Valid() && Same(v, r)
  {
    NameHolds(v.hostname);
    NameHolds(v.nicName);
    NameShort(v.hostname);
    NameShort(v.nicName);
    v.(hostname := NameOf(v.hostname), nicName := NameOf(v.nicName))
  }

  lemma NameShort(a: string)
    requires |a| == NAME_BYTES && a[NAME_BYTES - 1] == '\0'
    ensures |CString(a)| < NAME_BYTES
  {
    var c := CString(a);
    assert forall k | 0 <= k < |c| :: c[k] in c && c[k] == a[k];
  }

  /** The fields in front of the names, as far as the numbers can be read back. */
  lemma ReadFront(w: Info, v: Info)
    requires w.Valid() && v.Valid()
    ensures var r := Parse(w, Text(v));
      if v.qpNum < INT_LIMIT && v.mtu < INT_LIMIT then
        r == Parse(v.(hostname := w.hostname, nicName := w.nicName, isInitialized := w.isInitialized), Tail(v))
      else r.thrown
  {
    hide Parse, Field, Tail, Decimal, ListText;
    var f6 := Field(Mtu, Decimal(v.mtu)) + Tail(v);
    var f5 := Field(Mac, ListText(v.mac)) + f6;
    var f4 := Field(GidTableIndex, Decimal(v.gidTableIndex)) + f5;
    var f3 := Field(Gid, ListText(v.gid)) + f4;
    var f2 := Field(Lid, Decimal(v.lid)) + f3;
    ReadQpNum(w, v.qpNum, f2);
    var w1 := w.(qpNum := v.qpNum);
    ReadLid(w1, v.lid, f3);
    var w2 := w1.(lid := v.lid);
    ReadGid(w2, v.gid, f4);
    var w3 := w2.(gid := v.gid);
    ReadIndex(w3, v.gidTableIndex, f5);
    var w4 := w3.(gidTableIndex := v.gidTableIndex);
    ReadMac(w4, v.mac, f6);
    ReadMtu(w4.(mac := v.mac), v.mtu, Tail(v));
  }

  /** Read over any record, the text of a record that fits restores every field of it. */
  lemma RoundTrip(v: Info, w: Info)
    requires v.Valid() && w.Valid() && Fits(v)
    ensures Parse(w, Text(v)) == Parsed(Cleared(v), false)
  {
    ReadFront(w, v);
    hide Parse, Field, Text, NameOf, Spelt, Plain;
    var h, n := CString(v.hostname), CString(v.nicName);
    var w1 := v.(hostname := w.hostname, nicName := w.nicName, isInitialized := w.isInitialized);
    ReadHostname(w1, h, Field(NicName, n) + (Spelt(IsInitialized) + ":" + FlagText(v.isInitialized)));
    var w2 := w1.(hostname := NameOf(h));
    ReadNicName(w2, n, Spelt(IsInitialized) + ":" + FlagText(v.isInitialized));
    ReadFlag(w2.(nicName := NameOf(n)), v.isInitialized);
    CStringTwice(v.hostname);
    CStringTwice(v.nicName);
  }

  lemma CStringTwice(a: string)
    ensures NameOf(CString(a)) == NameOf(a)
  {
    CStringOf(CString(a), "");
    assert CString(a) + "" == CString(a);
  }

  lemma {:induction false} CStringIn(s: string)
    ensures forall c | c in CString(s) :: c in s
  {
    if s == "" || s[0] == '\0' {
    } else {
      CStringIn(s[1..]);
    }
  }

  lemma NameIsPlain(value: string)
    requires Plain(value)
    ensures Plain(CString(NameOf(value)))
  {
    hide NameOf;
    CStringIn(value);
    NameHolds(value);
  }

  lemma ValueIsPlain(token: string)
    requires ';' !in token
    ensures Plain(ValueOf(token))
  {
  }

  ghost predicate PlainKept(w: Info, r: Info) {
    (Plain(CString(w.hostname)) ==> Plain(CString(r.hostname))) &&
    (Plain(CString(w.nicName)) ==> Plain(CString(r.nicName)))
  }

  lemma AssignNames(w: Info, f: FieldName, value: string)
    requires w.Valid()
    ensures var r := Assign(w, f, value).info;
      r.hostname == (if f == Hostname then NameOf(value) else w.hostname) &&
      r.nicName == (if f == NicName then NameOf(value) else w.nicName)
  {
    hide Stoi, NameOf, ReadList;
  }

  lemma AssignKeepsPlain(w: Info, f: FieldName, value: string)
    requires w.Valid() && Plain(value)
    ensures PlainKept(w, Assign(w, f, value).info)
  {
    AssignNames(w, f, value);
    NameIsPlain(value);
    hide Assign, CString, Plain, NameOf;
  }

  /** A name that was once parsed never holds a delimiter again. */
  lemma {:induction false} NamesStayPlain(w: Info, text: string)
    requires w.Valid()
    ensures PlainKept(w, Parse(w, text).info)
    decreases |text|
  {
    if text == "" {
    } else {
      var p := Cut(text, ';');
      var f, value := Named(Key(p.before)), ValueOf(p.before);
      ValueIsPlain(p.before);
      hide Assign, CString, Plain, Cut, Key, ValueOf, Named;
      AssignKeepsPlain(w, f, value);
      var step := Assign(w, f, value);
      NamesStayPlain(step.info, p.after);
    }
  }

  /** Whatever the value is, a field with a plain key is the first to be read. */
  lemma ParseAnyField(w: Info, f: FieldName, value: string, rest: string) returns (part: string, left: string)
    requires w.Valid() && f != Unknown
    ensures Plain(part)
    ensures Parse(w, Field(f, value) + rest) == Then(Assign(w, f, part), left)
  {
    SpeltIsNamed(f);
    hide Assign, Named, Spelt;
    var body := value + ";" + rest;
    var p := Cut(body, ';');
    var name := Spelt(f) + ":";
    CutPrefix(name, body, ';');
    assert Field(f, value) + rest == name + body;
    KeyAndValue(Spelt(f), p.before);
    part, left := Cut(p.before, ':').before, p.after;
  }

  /** No name with a delimiter in it is restored. */
  lemma TailNeedsPlain(w: Info, v: Info)
    requires w.Valid() && v.Valid()
    ensures var r := Parse(w, Tail(v)).info;
      CString(r.hostname) == CString(v.hostname) && CString(r.nicName) == CString(v.nicName)
      ==> Plain(CString(v.hostname)) && Plain(CString(v.nicName))
  {
    hide Parse, Field, NameOf, CString, Plain, Spelt;
    var h, n := CString(v.hostname), CString(v.nicName);
    var end := Spelt(IsInitialized) + ":" + FlagText(v.isInitialized);
    var part, left := ParseAnyField(w, Hostname, h, Field(NicName, n) + end);
    NameIsPlain(part);
    NamesStayPlain(w.(hostname := NameOf(part)), left);
    if Plain(h) {
      ReadHostname(w, h, Field(NicName, n) + end);
      var w' := w.(hostname := NameOf(h));
      part, left := ParseAnyField(w', NicName, n, end);
      NameIsPlain(part);
      NamesStayPlain(w'.(nicName := NameOf(part)), left);
    }
  }

  /** The text of a record can be read back exactly when the record fits. */
  lemma RoundTripIff(v: Info, w: Info)
    requires v.Valid() && w.Valid()
    ensures var r := Parse(w, Text(v));
      (!r.thrown && Same(v, r.info)) <==> Fits(v)
  {
    if Fits(v) {
      RoundTrip(v, w);
    } else {
      hide Parse, Text, Tail, CString, Plain;
      ReadFront(w, v);
      TailNeedsPlain(v.(hostname := w.hostname, nicName := w.nicName, isInitialized := w.isInitialized), v);
    }
  }

  /** A record that a caller can build, with names that go unchecked. */
  function WithHost(host: string): (v: Info)
    ensures v.Valid()
  {
    Info(0, 0, seq(GID_BYTES, k => 0), 0, seq(MAC_BYTES, k => 0), 0, NameOf(host), NameOf(""), false)
  }

  /** A host name with a colon in it does not survive. */
  lemma ColonIsLost(w: Info)
    requires w.Valid()
    ensures var v, r := WithHost("a:1"), Parse(w, Text(WithHost("a:1")));
      r.thrown || !Same(v, r.info)
  {
    Colon();
    hide NameOf, CString, Plain, Parse, Text, Same;
    RoundTripIff(WithHost("a:1"), w);
  }

  lemma Colon()
    ensures !Plain(CString(NameOf("a:1")))
  {
    NameHolds("a:1");
    assert CString("a:1") == "a:1";
    assert "a:1"[1] == ':';
  }

  // ---------- numbers out of range, and keys nobody knows ----------

  /** A number that `stoi` accepts is cast to the type of its field; for the flag only zero is false. */
  lemma NumbersWrap(w: Info, sign: string, n: nat)
    requires w.Valid() && sign in ["", "+", "-"] && n < INT_LIMIT
    ensures var value, x := sign + Decimal(n), if sign == "-" then 0 - n else n;
            && Assign(w, QpNum, value) == Parsed(w.(qpNum := x % 0x1_0000_0000), false)
            && Assign(w, Lid, value) == Parsed(w.(lid := x % 0x1_0000), false)
            && Assign(w, GidTableIndex, value) == Parsed(w.(gidTableIndex := x % 0x100), false)
            && Assign(w, Mtu, value) == Parsed(w.(mtu := x % 0x1_0000_0000), false)
            && Assign(w, IsInitialized, value) == Parsed(w.(isInitialized := x != 0), false)
  {
    StoiReads("", sign, n, "");
    assert Decimal(n) + "" == Decimal(n) && "" + (sign + Decimal(n)) == sign + Decimal(n);
    hide Stoi, Decimal;
  }

  /** A key that is none of the nine is skipped. */
  lemma UnknownSkipped(w: Info, key: string, value: string)
    requires w.Valid()
    requires key !in ["qp_num", "lid", "gid", "gid_table_index", "mac", "mtu", "hostname", "nic_name", "is_initialized"]
    ensures Assign(w, Named(key), value) == Parsed(w, false)
  {
    hide Stoi;
  }

  // ---------- the order of the fields ----------

  lemma CommaAdded(a: string, d: string)
    requires ',' !in d
    ensures multiset(a + d + ",")[','] == multiset(a)[','] + 1
    ensures a + d + "," != "" && (a + d + ",")[|a + d + ","| - 1] == ','
  {
    assert multiset(a + d + ",") == multiset(a) + multiset(d) + multiset{','};
  }

  /** One comma per byte, and the last one at the end. */
  lemma {:induction false} ListCommas(l: seq<u8>)
    ensures multiset(ListText(l))[','] == |l|
    ensures l != [] ==> ListText(l) != "" && ListText(l)[|ListText(l)| - 1] == ','
  {
    if l == [] {
    } else {
      var k := |l| - 1;
      var a, d := ListText(l[..k]), Decimal(l[k]);
      assert ListText(l) == a + d + ",";
      hide Decimal, Plain, ListText;
      ListCommas(l[..k]);
      DecimalIsPlain(l[k]);
      CommaAdded(a, d);
    }
  }

  lemma FieldSpeltOut(f: FieldName, name: string, value: string, rest: string)
    requires Spelt(f) + ":" == name
    ensures Field(f, value) + rest == name + (value + (";" + rest))
  {
    hide Spelt;
    Regroup(name + value, ";", rest);
    Regroup(name, value, ";" + rest);
  }

  /** The text, spelt out. */
  lemma TextSpeltOut(v: Info)
    ensures
      var t9 := "is_initialized:" + (if v.isInitialized then "1" else "0");
      var t8 := "nic_name:" + (CString(v.nicName) + (";" + t9));
      var t7 := "hostname:" + (CString(v.hostname) + (";" + t8));
      var t6 := "mtu:" + (Decimal(v.mtu) + (";" + t7));
      var t5 := "mac:" + (ListText(v.mac) + (";" + t6));
      var t4 := "gid_table_index:" + (Decimal(v.gidTableIndex) + (";" + t5));
      var t3 := "gid:" + (ListText(v.gid) + (";" + t4));
      var t2 := "lid:" + (Decimal(v.lid) + (";" + t3));
      Text(v) == "qp_num:" + (Decimal(v.qpNum) + (";" + t2))
  {
    Spelling();
    hide Decimal, ListText, CString, Field, Spelt;
    var t9 := "is_initialized:" + (if v.isInitialized then "1" else "0");
    var t8 := "nic_name:" + (CString(v.nicName) + (";" + t9));
    var t7 := "hostname:" + (CString(v.hostname) + (";" + t8));
    var t6 := "mtu:" + (Decimal(v.mtu) + (";" + t7));
    var t5 := "mac:" + (ListText(v.mac) + (";" + t6));
    var t4 := "gid_table_index:" + (Decimal(v.gidTableIndex) + (";" + t5));
    var t3 := "gid:" + (ListText(v.gid) + (";" + t4));
    var t2 := "lid:" + (Decimal(v.lid) + (";" + t3));
    FieldSpeltOut(NicName, "nic_name:", CString(v.nicName), t9);
    FieldSpeltOut(Hostname, "hostname:", CString(v.hostname), t8);
    FieldSpeltOut(Mtu, "mtu:", Decimal(v.mtu), t7);
    FieldSpeltOut(Mac, "mac:", ListText(v.mac), t6);
    FieldSpeltOut(GidTableIndex, "gid_table_index:", Decimal(v.gidTableIndex), t5);
    FieldSpeltOut(Gid, "gid:", ListText(v.gid), t4);
    FieldSpeltOut(Lid, "lid:", Decimal(v.lid), t3);
    FieldSpeltOut(QpNum, "qp_num:", Decimal(v.qpNum), t2);
  }

  /** The keys of the tokens of a text, in order. */
  function Keys(text: string): seq<string>
    decreases |text|
  {
    if text == "" then [] else [Key(Cut(text, ';').before)] + Keys(Cut(text, ';').after)
  }

  lemma KeyOfField(f: FieldName, value: string, rest: string)
    requires f != Unknown && ';' !in value
    ensures Keys(Field(f, value) + rest) == [Spelt(f)] + Keys(rest)
  {
    SpeltIsNamed(f);
    hide Spelt, Named;
    var token := Spelt(f) + ":" + value;
    KeyAndValue(Spelt(f), value);
    CutAtDelimiter(token, rest, ';');
    assert Field(f, value) + rest == token + ";" + rest;
  }

  lemma KeyOfLast(f: FieldName, value: string)
    requires f != Unknown && ';' !in value
    ensures Keys(Spelt(f) + ":" + value) == [Spelt(f)]
  {
    SpeltIsNamed(f);
    hide Spelt, Named;
    KeyAndValue(Spelt(f), value);
    CutAtEnd(Spelt(f) + ":" + value, ';');
  }

  /** The text names the nine fields in this order, unless a name breaks it up. */
  lemma KeysInOrder(v: Info)
    requires ';' !in CString(v.hostname) && ';' !in CString(v.nicName)
    ensures Keys(Text(v)) ==
      ["qp_num", "lid", "gid", "gid_table_index", "mac", "mtu", "hostname", "nic_name", "is_initialized"]
  {
    KeysBySpelling(v);
    assert Spelt(QpNum) == "qp_num" && Spelt(Lid) == "lid" && Spelt(Gid) == "gid";
    assert Spelt(GidTableIndex) == "gid_table_index" && Spelt(Mac) == "mac" && Spelt(Mtu) == "mtu";
    assert Spelt(Hostname) == "hostname" && Spelt(NicName) == "nic_name" && Spelt(IsInitialized) == "is_initialized";
    hide Text, Keys, CString;
  }

  lemma KeysBySpelling(v: Info)
    requires ';' !in CString(v.hostname) && ';' !in CString(v.nicName)
    ensures Keys(Text(v)) == [Spelt(QpNum), Spelt(Lid), Spelt(Gid), Spelt(GidTableIndex), Spelt(Mac), Spelt(Mtu),
                              Spelt(Hostname), Spelt(NicName), Spelt(IsInitialized)]
  {
    hide Keys, Field, Decimal, ListText, CString, Spelt, Plain;
    var flag := FlagText(v.isInitialized);
    var end := Spelt(IsInitialized) + ":" + flag;
    var t8 := Field(NicName, CString(v.nicName)) + end;
    var t7 := Field(Hostname, CString(v.hostname)) + t8;
    var t6 := Field(Mtu, Decimal(v.mtu)) + t7;
    var t5 := Field(Mac, ListText(v.mac)) + t6;
    var t4 := Field(GidTableIndex, Decimal(v.gidTableIndex)) + t5;
    var t3 := Field(Gid, ListText(v.gid)) + t4;
    var t2 := Field(Lid, Decimal(v.lid)) + t3;
    NoDelimiters(v);
    KeyOfLast(IsInitialized, flag);
    KeyOfField(NicName, CString(v.nicName), end);
    KeyOfField(Hostname, CString(v.hostname), t8);
    KeyOfField(Mtu, Decimal(v.mtu), t7);
    KeyOfField(Mac, ListText(v.mac), t6);
    KeyOfField(GidTableIndex, Decimal(v.gidTableIndex), t5);
    KeyOfField(Gid, ListText(v.gid), t4);
    KeyOfField(Lid, Decimal(v.lid), t3);
    KeyOfField(QpNum, Decimal(v.qpNum), t2);
  }

  lemma NoDelimiters(v: Info)
    ensures ';' !in Decimal(v.qpNum) && ';' !in Decimal(v.lid) && ';' !in Decimal(v.mtu)
    ensures ';' !in Decimal(v.gidTableIndex)
    ensures ';' !in ListText(v.gid) && ';' !in ListText(v.mac) && ';' !in FlagText(v.isInitialized)
  {
    DecimalIsPlain(v.qpNum);
    DecimalIsPlain(v.lid);
    DecimalIsPlain(v.gidTableIndex);
    DecimalIsPlain(v.mtu);
    ListIsPlain(v.gid);
    ListIsPlain(v.mac);
    hide Decimal, ListText;
  }

  // ---------- the class ----------

  /** The loop over a list of bytes, in the branches for the GID and the MAC address. */
  method ReadBytes(a: array<u8>, value: string) returns (thrown: bool)
    modifies a
    ensures List(a[..], thrown) == ReadList(old(a[..]), 0, value)
  {
    hide Stoi, Cut;
    thrown := false;
    var stream, i := value, 0;
    while stream != "" && i < a.Length && !thrown
      invariant i <= a.Length
      invariant ReadList(old(a[..]), 0, value) == if thrown then List(a[..], true) else ReadList(a[..], i, stream)
      decreases |stream|, !thrown
    {
      var p := Cut(stream, ',');
      match Stoi(p.before)
      case None =>
        thrown := true;
      case Some(x) =>
        ghost var was := a[..];
        a[i] := ToU8(x);
        assert a[..] == was[i := ToU8(x)];
        i, stream := i + 1, p.after;
    }
  }

  /** `strncpy`: copies up to the NUL of the string and fills what is left of `n` characters with NULs. */
  method Strncpy(dst: array<char>, src: string, n: nat)
    requires n <= dst.Length
    modifies dst
    ensures dst[..n] == Padded(CString(src), n)
    ensures dst[n..] == old(dst[n..])
  {
    hide CString;
    var i := 0;
    CStringAt(src, 0);
    while i < n && i < |src| && src[i] != '\0'
      invariant i <= n && i <= |CString(src)|
      invariant i == |CString(src)| < |src| ==> src[i] == '\0'
      invariant i < |CString(src)| ==> i < |src| && src[i] != '\0'
      invariant dst[..i] == CString(src)[..i]
      invariant dst[n..] == old(dst[n..])
    {
      CStringAt(src, i);
      dst[i] := src[i];
      i := i + 1;
      CStringAt(src, i);
    }
    ghost var kept := i;
    while i < n
      invariant kept <= i <= n && dst[..kept] == CString(src)[..kept]
      invariant kept < n ==> kept == |CString(src)|
      invariant forall k :: kept <= k < i ==> dst[k] == '\0'
      invariant dst[n..] == old(dst[n..])
    {
      dst[i] := '\0';
      i := i + 1;
    }
    assert CString(src)[..kept] == if kept < n then CString(src) else CString(src)[..n];
  }

  /** `strncpy` and the terminator behind it, with a limit of 63 or 64 characters. */
  method CopyName(a: array<char>, value: string, limit: nat)
    requires a.Length == NAME_BYTES && NAME_BYTES - 1 <= limit <= NAME_BYTES
    modifies a
    ensures a[..] == NameOf(value)
  {
    Strncpy(a, value, limit);
    ghost var c := CString(value);
    assert a[..NAME_BYTES - 1] == Padded(c, NAME_BYTES - 1) by {
      assert a[..NAME_BYTES - 1] == a[..limit][..NAME_BYTES - 1];
      assert Padded(c, NAME_BYTES)[..NAME_BYTES - 1] == Padded(c, NAME_BYTES - 1);
    }
    a[NAME_BYTES - 1] := '\0';
    assert a[..] == a[..NAME_BYTES - 1] + ['\0'];
  }

  class QPInfo {

    var qpNum: u32
    var lid: u16
    const gid: array<u8>
    var gidTableIndex: u8
    var mtu: u32
    const macAddr: array<u8>
    const hostname: array<char>
    const nicName: array<char>
    var isInitialized: bool

    ghost predicate Valid()
      reads this, gid, macAddr, hostname, nicName
    {
      gid.Length == GID_BYTES && macAddr.Length == MAC_BYTES && gid != macAddr &&
      hostname.Length == NAME_BYTES && nicName.Length == NAME_BYTES && hostname != nicName &&
      hostname[NAME_BYTES - 1] == '\0' && nicName[NAME_BYTES - 1] == '\0'
    }

    ghost function Value(): (v: Info)
      reads this, gid, macAddr, hostname, nicName
      requires Valid()
      ensures v.Valid()
    {
      Info(qpNum, lid, gid[..], gidTableIndex, macAddr[..], mtu, hostname[..], nicName[..], isInitialized)
    }

    /** `QPInfo`: without a GID the array is zero. */
    constructor (qpNum: u32, lid: u16, from: Option<seq<u8>>, mtu: u32, host: string, nic: string)
      requires from.Some? ==> |from.value| == GID_BYTES
      ensures Valid() && fresh(gid) && fresh(macAddr) && fresh(hostname) && fresh(nicName)
      ensures Value() == Info(
        qpNum, lid, if from.Some? then from.value else seq(GID_BYTES, k => 0), 0, seq(MAC_BYTES, k => 0), mtu,
        NameOf(host), NameOf(nic), false)
    {
      this.qpNum, this.lid, this.mtu := qpNum, lid, mtu;
      gidTableIndex, isInitialized := 0, false;
      var bytes := if from.Some? then from.value else seq(GID_BYTES, k => 0);
      gid := new u8[GID_BYTES](k requires 0 <= k < GID_BYTES => bytes[k]);
      macAddr := new u8[MAC_BYTES](k => 0);
      hostname := new char[NAME_BYTES];
      nicName := new char[NAME_BYTES];
      new;
      CopyName(hostname, host, NAME_BYTES);
      CopyName(nicName, nic, NAME_BYTES);
      assert gid[..] == bytes && macAddr[..] == seq(MAC_BYTES, k => 0);
    }

    /** `deserialize`: when `stoi` throws, what was assigned before stays assigned. */
    method Deserialize(text: string) returns (thrown: bool)
      requires Valid()
      modifies this, gid, macAddr, hostname, nicName
      ensures Valid()
      ensures Parsed(Value(), thrown) == Parse(old(Value()), text)
    {
      hide Key, ValueOf, Stoi, Assign, Cut, Named;
      thrown := false;
      var stream := text;
      while stream != "" && !thrown
        invariant Valid()
        invariant Parse(old(Value()), text) == if thrown then Parsed(Value(), true) else Parse(Value(), stream)
        decreases |stream|, !thrown
      {
        var p := Cut(stream, ';');
        stream := p.after;
        thrown := AssignField(Named(Key(p.before)), ValueOf(p.before));
      }
    }

    /** The branch that a field selects. */
    method AssignField(field: FieldName, value: string) returns (thrown: bool)
      requires Valid()
      modifies this, gid, macAddr, hostname, nicName
      ensures Valid()
      ensures Parsed(Value(), thrown) == Assign(old(Value()), field, value)
    {
      hide Stoi, ReadList, NameOf;
      thrown := false;
      var number := Stoi(value);
      if field == Gid {
        thrown := ReadBytes(gid, value);
      } else if field == Mac {
        thrown := ReadBytes(macAddr, value);
      } else if field == Hostname {
        CopyName(hostname, value, NAME_BYTES - 1);
      } else if field == NicName {
        CopyName(nicName, value, NAME_BYTES - 1);
      } else if field != Unknown {
        if number == None {
          thrown := true;
        } else if field == QpNum {
          qpNum := ToU32(number.value);
        } else if field == Lid {
          lid := ToU16(number.value);
        } else if field == GidTableIndex {
          gidTableIndex := ToU8(number.value);
        } else if field == Mtu {
          mtu := ToU32(number.value);
        } else {
          isInitialized := number.value != 0;
        }
      }
    }

    /** `serialize` */
    method Serialize() returns (s: string)
      requires Valid()
      ensures s == Text(Value())
    {
      ghost var v, text := Value(), Text(Value());
      ghost var end := Spelt(IsInitialized) + ":" + FlagText(v.isInitialized);
      ghost var t8 := Field(NicName, CString(v.nicName)) + end;
      ghost var t7 := Field(Hostname, CString(v.hostname)) + t8;
      ghost var t6 := Field(Mtu, Decimal(v.mtu)) + t7;
      ghost var t5 := Field(Mac, ListText(v.mac)) + t6;
      ghost var t4 := Field(GidTableIndex, Decimal(v.gidTableIndex)) + t5;
      ghost var t3 := Field(Gid, ListText(v.gid)) + t4;
      ghost var t2 := Field(Lid, Decimal(v.lid)) + t3;
      assert "" + text == Field(QpNum, Decimal(v.qpNum)) + t2;
      Spelling();
      hide Decimal, CString, Field, Text, Tail, Spelt;

      s := "qp_num:" + Decimal(qpNum) + ";";
      Append("", QpNum, Decimal(v.qpNum), t2);
      Append(s, Lid, Decimal(v.lid), t3);
      s := s + ("lid:" + Decimal(lid) + ";");
      Append(s, Gid, ListText(v.gid), t4);
      s := s + "gid:";
      ghost var front := s;
      for i := 0 to GID_BYTES
        invariant s == front + ListText(gid[..i])
      {
        ListTextSnoc(gid[..], i);
        Regroup(front, ListText(gid[..i]), Decimal(gid[i]) + ",");
        s := s + (Decimal(gid[i]) + ",");
      }
      assert gid[..GID_BYTES] == gid[..];
      s := s + ";";
      Append(s, GidTableIndex, Decimal(v.gidTableIndex), t5);
      s := s + ("gid_table_index:" + Decimal(gidTableIndex) + ";");
      Append(s, Mac, ListText(v.mac), t6);
      s := s + "mac:";
      front := s;
      for i := 0 to MAC_BYTES
        invariant s == front + ListText(macAddr[..i])
      {
        ListTextSnoc(macAddr[..], i);
        Regroup(front, ListText(macAddr[..i]), Decimal(macAddr[i]) + ",");
        s := s + (Decimal(macAddr[i]) + ",");
      }
      assert macAddr[..MAC_BYTES] == macAddr[..];
      s := s + ";";
      Append(s, Mtu, Decimal(v.mtu), t7);
      s := s + ("mtu:" + Decimal(mtu) + ";");
      Append(s, Hostname, CString(v.hostname), t8);
      s := s + ("hostname:" + CString(hostname[..]) + ";");
      Append(s, NicName, CString(v.nicName), end);
      s := s + ("nic_name:" + CString(nicName[..]) + ";");
      s := s + ("is_initialized:" + FlagText(isInitialized));
    }
  }

  lemma Regroup(a: string, b: string, c: string)
    ensures a + b + c == a + (b + c)
  {
  }

  /** Appending a field moves it from what is left to what is written. */
  lemma Append(s: string, f: FieldName, value: string, rest: string)
    ensures s + (Spelt(f) + ":" + value + ";") + rest == s + (Field(f, value) + rest)
    ensures s + (Spelt(f) + ":") + value + ";" + rest == s + (Field(f, value) + rest)
  {
    hide Spelt;
    var name := Spelt(f) + ":";
    Regroup(s, Field(f, value), rest);
    Regroup(s + name, value, ";");
    Regroup(s, name, value + ";");
    Regroup(name, value, ";");
  }

  lemma ListTextSnoc(l: seq<u8>, i: nat)
    requires i < |l|
    ensures ListText(l[..i + 1]) == ListText(l[..i]) + (Decimal(l[i]) + ",")
  {
    hide Decimal;
    assert l[..i + 1][..i] == l[..i];
    Regroup(ListText(l[..i]), Decimal(l[i]), ",");
  }

  lemma Spelling()
    ensures Spelt(QpNum) + ":" == "qp_num:"
    ensures Spelt(Lid) + ":" == "lid:"
    ensures Spelt(Gid) + ":" == "gid:"
    ensures Spelt(GidTableIndex) + ":" == "gid_table_index:"
    ensures Spelt(Mac) + ":" == "mac:"
    ensures Spelt(Mtu) + ":" == "mtu:"
    ensures Spelt(Hostname) + ":" == "hostname:"
    ensures Spelt(NicName) + ":" == "nic_name:"
    ensures Spelt(IsInitialized) + ":" == "is_initialized:"
  {
  }
}
