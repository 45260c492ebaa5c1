/**
 The backup container: a length-prefixed JSON header, then one length-prefixed entry for every table and avatar.
 UTF-8, JSON and SHA-256 are parameters; the bytes are those inside the gzip stream.
 */
module BackupContainer {
  import opened TextOrder
  import opened JsonValue

  type byte = x: int | 0 <= x < 256
  type Bytes = seq<byte>

  // ----- Big-endian numbers

  function Power(n: nat): (p: nat)
    ensures p > 0
  {
    if n == 0 then 1 else 256 * Power(n - 1)
  }

  /** v as n bytes, most significant first; higher digits are dropped. */
  function Digits(v: nat, n: nat): (s: Bytes)
    ensures |s| == n
  {
    if n == 0 then [] else Digits(v / 256, n - 1) + [v % 256]
  }

  function Value(s: Bytes): (v: nat)
    ensures v < Power(|s|)
  {
    if s == [] then 0 else Value(s[..|s| - 1]) * 256 + s[|s| - 1]
  }

  lemma {:induction false} ValueOfDigits(v: nat, n: nat)
    requires v < Power(n)
    ensures Value(Digits(v, n)) == v
  {
    if n > 0 {
      ValueOfDigits(v / 256, n - 1);
      assert Digits(v, n)[..n - 1] == Digits(v / 256, n - 1);
    }
  }

  lemma {:induction false} DigitsOfValue(s: Bytes)
    ensures Digits(Value(s), |s|) == s
  {
    if s != [] {
      DigitsOfValue(s[..|s| - 1]);
      assert s == s[..|s| - 1] + [s[|s| - 1]];
    }
  }

  /** The most significant byte comes first. */
  lemma BigEndian(v: nat)
    ensures Digits(v, 2) == [v / 0x100 % 0x100, v % 0x100]
    ensures Digits(v, 4) == [v / 0x100_0000 % 0x100, v / 0x1_0000 % 0x100, v / 0x100 % 0x100, v % 0x100]
    ensures Digits(v, 8) == Digits(v / 0x1_0000_0000, 4) + Digits(v, 4)
  {
    FourDigits(v);
    FourDigits(v / 0x1_0000_0000);
    FourMore(v, 4);
  }

  lemma FourDigits(v: nat)
    ensures Digits(v, 2) == [v / 0x100 % 0x100, v % 0x100]
    ensures Digits(v, 4) == [v / 0x100_0000 % 0x100, v / 0x1_0000 % 0x100, v / 0x100 % 0x100, v % 0x100]
  {
    hide Digits;
    Quotients(v);
    OneMoreDigit(v / 0x100, 0);
    OneMoreDigit(v, 1);
    OneMoreDigit(v / 0x100_0000, 0);
    OneMoreDigit(v / 0x1_0000, 1);
    OneMoreDigit(v / 0x100, 2);
    OneMoreDigit(v, 3);
  }

  lemma Quotients(v: nat)
    ensures v / 0x100 / 0x100 == v / 0x1_0000
    ensures v / 0x1_0000 / 0x100 == v / 0x100_0000
    ensures v / 0x100_0000 / 0x100 == v / 0x1_0000_0000
  {}

  lemma OneMoreDigit(v: nat, n: nat)
    ensures Digits(v, n + 1) == Digits(v / 0x100, n) + [v % 0x100]
    ensures Digits(v, 0) == []
  {}

  lemma FourMore(v: nat, n: nat)
    ensures Digits(v, n + 4) == Digits(v / 0x1_0000_0000, n) + Digits(v, 4)
  {
    hide Digits;
    Quotients(v);
    FourDigits(v);
    OneMoreDigit(v / 0x100_0000, n);
    OneMoreDigit(v / 0x1_0000, n + 1);
    OneMoreDigit(v / 0x100, n + 2);
    OneMoreDigit(v, n + 3);
  }

  // ----- Entries

  datatype Formats = Formats(
    utf8: string -> Option<Bytes>,
    text: Bytes -> Option<string>,
    loads: Bytes -> Option<Json>,
    dumps: Json -> Bytes,
    sha256: Bytes -> string)

  /** Strict UTF-8 decoding is the inverse of encoding. */
  ghost predicate Faithful(f: Formats) {
    forall s, b :: f.utf8(s) == Some(b) <==> f.text(b) == Some(s)
  }

  datatype Entry = Entry(name: string, data: Bytes)

  predicate Writable(f: Formats, e: Entry) {
    f.utf8(e.name).Some? && |f.utf8(e.name).value| < Power(2) && |e.data| < Power(8)
  }

  function Printed(f: Formats, e: Entry): Bytes
    requires Writable(f, e)
  {
    var name := f.utf8(e.name).value;
    Digits(|name|, 2) + name + Digits(|e.data|, 8) + e.data
  }

  function PrintedAll(f: Formats, es: seq<Entry>): Bytes
    requires forall e :: e in es ==> Writable(f, e)
  {
    if es == [] then [] else PrintedAll(f, es[..|es| - 1]) + Printed(f, es[|es| - 1])
  }

  /** The bytes of raw from a up to b are e, printed. */
  ghost predicate EntryAt(f: Formats, raw: Bytes, a: nat, e: Entry, b: nat) {
    a <= b <= |raw| && Writable(f, e) && raw[a..b] == Printed(f, e)
  }

  /** The bytes of raw from a up to b are the entries es, printed. */
  ghost predicate EntriesAt(f: Formats, raw: Bytes, a: nat, es: seq<Entry>, b: nat) {
    a <= b <= |raw| && (forall e :: e in es ==> Writable(f, e)) && raw[a..b] == PrintedAll(f, es)
  }

  /** A stretch of raw that is two parts joined. */
  lemma TwoParts(raw: Bytes, a: nat, b: nat, w: Bytes, x: Bytes)
    requires a <= b <= |raw| && raw[a..b] == w + x
    ensures a + |w| + |x| == b && raw[a..a + |w|] == w && raw[a + |w|..b] == x
  {
    assert |raw[a..b]| == b - a;
    assert w == (w + x)[..|w|] == raw[a..b][..|w|] && x == (w + x)[|w|..] == raw[a..b][|w|..];
  }

  /** The fields of the entry e, one after the other from a up to b. */
  ghost predicate LaidOut(f: Formats, raw: Bytes, a: nat, e: Entry, b: nat) {
    f.utf8(e.name).Some? && b <= |raw|
    && var n := |f.utf8(e.name).value|;
    a + 2 + n + 8 + |e.data| == b
    && Value(raw[a..a + 2]) == n
    && raw[a + 2..a + 2 + n] == f.utf8(e.name).value
    && Value(raw[a + 2 + n..a + 2 + n + 8]) == |e.data|
    && raw[a + 2 + n + 8..b] == e.data
  }

  lemma EntryFields(f: Formats, raw: Bytes, a: nat, e: Entry, b: nat)
    requires EntryAt(f, raw, a, e, b)
    ensures LaidOut(f, raw, a, e, b)
  {
    hide Power, Digits, Value;
    var name := f.utf8(e.name).value;
    ValueOfDigits(|name|, 2);
    ValueOfDigits(|e.data|, 8);
    var o := b - |e.data|;
    TwoParts(raw, a, b, Digits(|name|, 2) + name + Digits(|e.data|, 8), e.data);
    TwoParts(raw, a, o, Digits(|name|, 2) + name, Digits(|e.data|, 8));
    TwoParts(raw, a, o - 8, Digits(|name|, 2), name);
  }

  lemma NameReads(f: Formats, raw: Bytes, a: nat, e: Entry, b: nat)
    requires Faithful(f) && EntryAt(f, raw, a, e, b)
    ensures f.text(f.utf8(e.name).value) == Some(e.name)
  {
    assert f.utf8(e.name) == Some(f.utf8(e.name).value);
  }

  lemma EntryUnique(f: Formats, raw: Bytes, a: nat, e: Entry, b: nat, e': Entry, b': nat)
    requires Faithful(f) && EntryAt(f, raw, a, e, b) && EntryAt(f, raw, a, e', b')
    ensures e == e' && b == b'
  {
    hide Power, Digits, Value, EntryAt, Faithful;
    EntryFields(f, raw, a, e, b);
    EntryFields(f, raw, a, e', b');
    NameReads(f, raw, a, e, b);
    NameReads(f, raw, a, e', b');
  }

  /** Conversely, fields that read so are an entry: the parser's answer prints to the bytes it took. */
  lemma FieldsEntry(f: Formats, raw: Bytes, a: nat, e: Entry, n: nat, b: nat)
    requires Faithful(f)
    requires a + 2 + n + 8 <= b <= |raw|
    requires Value(raw[a..a + 2]) == n && f.text(raw[a + 2..a + 2 + n]) == Some(e.name)
    requires Value(raw[a + 2 + n..a + 2 + n + 8]) == b - (a + 2 + n + 8)
    requires raw[a + 2 + n + 8..b] == e.data
    ensures EntryAt(f, raw, a, e, b)
  {
    DigitsOfValue(raw[a..a + 2]);
    DigitsOfValue(raw[a + 2 + n..a + 2 + n + 8]);
    assert f.utf8(e.name) == Some(raw[a + 2..a + 2 + n]);
    assert raw[a..b] == raw[a..a + 2] + raw[a + 2..a + 2 + n] + raw[a + 2 + n..a + 2 + n + 8] + raw[a + 2 + n + 8..b];
  }

  /** The reader accepts exactly the printed entries, and stays in bounds on any other bytes. */
  method ReadEntry(f: Formats, raw: Bytes, offset: nat) returns (r: Option<(Entry, nat)>)
    requires Faithful(f) && offset <= |raw|
    ensures r.Some? ==> EntryAt(f, raw, offset, r.value.0, r.value.1)
    ensures forall e: Entry, b: nat :: EntryAt(f, raw, offset, e, b) ==> r == Some((e, b))
  {
    hide Power, Digits, Value, EntryAt, Faithful;
    forall e: Entry, b: nat | EntryAt(f, raw, offset, e, b)
      ensures LaidOut(f, raw, offset, e, b) && f.text(f.utf8(e.name).value) == Some(e.name)
    {
      EntryFields(f, raw, offset, e, b);
      NameReads(f, raw, offset, e, b);
    }
    if |raw| - offset < 2 {
      return None;
    }
    var n := Value(raw[offset..offset + 2]);
    var o := offset + 2;
    if |raw| - o < n + 8 {
      return None;
    }
    var name := f.text(raw[o..o + n]);
    if name.None? {
      return None;
    }
    o := o + n;
    var size := Value(raw[o..o + 8]);
    o := o + 8;
    if size > |raw| - o {
      return None;
    }
    r := Some((Entry(name.value, raw[o..o + size]), o + size));
    FieldsEntry(f, raw, offset, r.value.0, n, o + size);
  }

  // ----- Sequences of entries

  lemma EntriesSnoc(f: Formats, raw: Bytes, a: nat, es: seq<Entry>, b: nat, e: Entry, c: nat)
    requires EntriesAt(f, raw, a, es, b) && EntryAt(f, raw, b, e, c)
    ensures EntriesAt(f, raw, a, es + [e], c)
  {
    assert (es + [e])[..|es|] == es;
    assert raw[a..c] == raw[a..b] + raw[b..c];
  }

  /** Every prefix of the entries ends at an offset where the next one starts. */
  lemma {:induction false} EntriesPrefix(f: Formats, raw: Bytes, a: nat, es: seq<Entry>, c: nat, k: nat)
    requires EntriesAt(f, raw, a, es, c) && k < |es|
    ensures exists b: nat, d: nat :: EntriesAt(f, raw, a, es[..k], b) && EntryAt(f, raw, b, es[k], d) && d <= c
    decreases |es|
  {
    var last := |es| - 1;
    var front := es[..last];
    var b := a + |PrintedAll(f, front)|;
    assert raw[a..b] == raw[a..c][..b - a];
    assert raw[b..c] == raw[a..c][b - a..];
    assert EntriesAt(f, raw, a, front, b) && EntryAt(f, raw, b, es[last], c);
    if k < last {
      EntriesPrefix(f, raw, a, front, b, k);
      assert front[..k] == es[..k];
    }
  }

  /** Where a list of entries ends is fixed by where it starts. */
  lemma EntriesEnd(f: Formats, raw: Bytes, a: nat, es: seq<Entry>, b: nat, c: nat)
    requires EntriesAt(f, raw, a, es, b) && EntriesAt(f, raw, a, es, c)
    ensures b == c
  {
    assert |raw[a..b]| == b - a && |raw[a..c]| == c - a;
  }

  // ----- The header

  const MAX_AVATAR_BYTES := 5 * 1024 * 1024

  predicate Digit(c: char) { '0' <= c <= '9' }

  /** A number without leading zeros, a dot and one of three extensions. */
  predicate AvatarName(s: string) {
    exists k :: 1 <= k < |s| && s[0] != '0' && (forall i :: 0 <= i < k ==> Digit(s[i]))
                && (s[k..] == ".jpg" || s[k..] == ".png" || s[k..] == ".webp")
  }

  /** Such a name cannot lead out of a directory. */
  lemma AvatarNameIsSafe(s: string)
    requires AvatarName(s)
    ensures '1' <= s[0] <= '9' && '/' !in s && '\\' !in s && '\0' !in s
  {
    hide AvatarName;
    var k := NumberEnd(s);
    Harmless(s[k..]);
    forall i | 0 <= i < |s|
      ensures s[i] != '/' && s[i] != '\\' && s[i] != '\0'
    {
      if i >= k { assert s[i] == s[k..][i - k]; }
    }
  }

  lemma NumberEnd(s: string) returns (k: nat)
    requires AvatarName(s)
    ensures 1 <= k < |s| && s[0] != '0' && forall i :: 0 <= i < k ==> '0' <= s[i] <= '9'
    ensures s[k..] == ".jpg" || s[k..] == ".png" || s[k..] == ".webp"
  {
    k :| 1 <= k < |s| && s[0] != '0' && (forall i :: 0 <= i < k ==> Digit(s[i]))
         && (s[k..] == ".jpg" || s[k..] == ".png" || s[k..] == ".webp");
  }

  lemma Harmless(extension: string)
    requires extension == ".jpg" || extension == ".png" || extension == ".webp"
    ensures forall i :: 0 <= i < |extension| ==>
      extension[i] != '/' && extension[i] != '\\' && extension[i] != '\0'
  {}

  /** Every number without leading zeros has its three names. */
  lemma NumberIsAvatarName(digits: string)
    requires digits != "" && digits[0] != '0' && forall i :: 0 <= i < |digits| ==> '0' <= digits[i] <= '9'
    ensures AvatarName(digits + ".jpg") && AvatarName(digits + ".png") && AvatarName(digits + ".webp")
  {
    NamedBy(digits, ".jpg");
    NamedBy(digits, ".png");
    NamedBy(digits, ".webp");
  }

  lemma NamedBy(digits: string, extension: string)
    requires digits != "" && digits[0] != '0' && forall i :: 0 <= i < |digits| ==> Digit(digits[i])
    requires extension == ".jpg" || extension == ".png" || extension == ".webp"
    ensures AvatarName(digits + extension)
  {
    var s, k := digits + extension, |digits|;
    assert s[k..] == extension;
    assert forall i :: 0 <= i < k ==> Digit(s[i]);
  }

  predicate Distinct<T(==)>(s: seq<T>) {
    forall i, j :: 0 <= i < j < |s| ==> s[i] != s[j]
  }

  function Names(es: seq<Entry>): (names: seq<string>)
    ensures |names| == |es| && forall i :: 0 <= i < |es| ==> names[i] == es[i].name
  {
    seq(|es|, i requires 0 <= i < |es| => es[i].name)
  }

  function Texts(items: seq<Json>): (r: Option<seq<string>>)
    ensures r.Some? <==> forall j :: 0 <= j < |items| ==> items[j].Text?
    ensures r.Some? ==> |r.value| == |items| && forall i :: 0 <= i < |items| ==> items[i] == Text(r.value[i])
  {
    if forall j :: 0 <= j < |items| ==> items[j].Text?
    then Some(seq(|items|, i requires 0 <= i < |items| => items[i].text)) else None
  }

  /** The tables and the avatar items a header announces. */
  datatype Plan = Plan(tables: seq<string>, avatars: seq<Json>)

  /** The version test compares by value: true equals one. */
  predicate IsOne(v: Json) {
    v == Number(1.0) || v == Flag(true)
  }

  function ReadHeader(f: Formats, header: Bytes): Option<Plan> {
    match f.loads(header)
    case Some(Object(o)) =>
      if "version" in o && "tables" in o && o["tables"].List?
         && (IsOne(o["version"]) || o["version"] == Number(2.0)) then
        var avatars := if o["version"] == Number(2.0) && "avatars" in o then o["avatars"] else List([]);
        match Texts(o["tables"].items) {
          case Some(tables) => if Distinct(tables) && avatars.List? then Some(Plan(tables, avatars.items)) else None
          case None => None
        }
      else None
    case _ => None
  }

  /**
   Which plan a header stands for: version 1, where true passes for one, without avatars, or version 2 with the avatars
   it lists; with a list of distinct table names.
   */
  lemma HeaderMeans(f: Formats, header: Bytes, o: map<string, Json>, plan: Plan)
    requires f.loads(header) == Some(Object(o))
    ensures ReadHeader(f, header) == Some(plan) <==>
            && "version" in o && "tables" in o
            && o["tables"] == List(seq(|plan.tables|, i requires 0 <= i < |plan.tables| => Text(plan.tables[i])))
            && (forall i, j :: 0 <= i < j < |plan.tables| ==> plan.tables[i] != plan.tables[j])
            && if o["version"] == Number(2.0) && "avatars" in o then o["avatars"] == List(plan.avatars)
               else o["version"] in [Number(1.0), Number(2.0), Flag(true)] && plan.avatars == []
  {
    var texts := seq(|plan.tables|, i requires 0 <= i < |plan.tables| => Text(plan.tables[i]));
    if "tables" in o && o["tables"].List? {
      var names := Texts(o["tables"].items);
      if o["tables"] == List(texts) {
        assert names.Some? && names.value == plan.tables;
      }
      if names == Some(plan.tables) {
        assert o["tables"].items == texts;
      }
    }
  }

  lemma OtherHeaders(f: Formats, header: Bytes)
    requires f.loads(header).None? || !f.loads(header).value.Object?
    ensures ReadHeader(f, header).None?
  {}

  /** What an avatar item of the header demands of its entry. */
  predicate Matches(f: Formats, item: Json, e: Entry) {
    item.Object? && "name" in item.fields && item.fields["name"] == Text(e.name) && AvatarName(e.name)
    && |e.data| <= MAX_AVATAR_BYTES
    && "sha256" in item.fields && item.fields["sha256"] == Text(f.sha256(e.data))
  }

  // ----- The container

  datatype Contents = Contents(tables: seq<Entry>, avatars: seq<Entry>)

  ghost predicate Announced(f: Formats, plan: Plan, c: Contents) {
    Names(c.tables) == plan.tables
    && |c.avatars| == |plan.avatars|
    && Distinct(Names(c.avatars))
    && forall i :: 0 <= i < |c.avatars| ==> Matches(f, plan.avatars[i], c.avatars[i])
  }

  /** raw is a header and, to its very end, the printed entries that the header announces. */
  ghost predicate IsBackup(f: Formats, raw: Bytes, header: Bytes, c: Contents) {
    var start := 4 + |header|;
    |header| < Power(4)
    && start <= |raw| && raw[..4] == Digits(|header|, 4) && raw[4..start] == header
    && ReadHeader(f, header).Some? && Announced(f, ReadHeader(f, header).value, c)
    && EntriesAt(f, raw, start, c.tables + c.avatars, |raw|)
  }

  function ByName(es: seq<Entry>): (m: map<string, Bytes>)
    ensures forall n :: n in m <==> n in Names(es)
    ensures Distinct(Names(es)) ==> forall e :: e in es ==> m[e.name] == e.data
  {
    if es == [] then map[]
    else
      var last := es[|es| - 1];
      assert Names(es) == Names(es[..|es| - 1]) + [last.name];
      ByName(es[..|es| - 1])[last.name := last.data]
  }

  lemma ByNameSnoc(es: seq<Entry>, e: Entry)
    ensures ByName(es + [e]) == ByName(es)[e.name := e.data]
    ensures Names(es + [e]) == Names(es) + [e.name]
  {
    hide Names;
    assert (es + [e])[..|es|] == es;
    NamesSnoc(es, e);
  }

  datatype Parsed = Parsed(tables: seq<string>, tableData: map<string, Bytes>, avatarData: map<string, Bytes>)

  function ResultOf(c: Contents): Parsed {
    Parsed(Names(c.tables), ByName(c.tables), ByName(c.avatars))
  }

  /** The entries es, read up to offset, are the first of those wanted. */
  ghost predicate ReadSoFar(f: Formats, raw: Bytes, start: nat, want: seq<Entry>, es: seq<Entry>, offset: nat) {
    |es| <= |want| && want[..|es|] == es && EntriesAt(f, raw, start, es, offset)
  }

  /** The next entry wanted is there for the reader to find. */
  lemma NextWanted(f: Formats, raw: Bytes, start: nat, want: seq<Entry>, end: nat, es: seq<Entry>, offset: nat)
    requires EntriesAt(f, raw, start, want, end) && |es| < |want|
    requires ReadSoFar(f, raw, start, want, es, offset)
    ensures exists b: nat :: EntryAt(f, raw, offset, want[|es|], b)
  {
    EntriesPrefix(f, raw, start, want, end, |es|);
    var b: nat, d: nat :| EntriesAt(f, raw, start, want[..|es|], b) && EntryAt(f, raw, b, want[|es|], d);
    EntriesEnd(f, raw, start, es, b, offset);
  }

  lemma Grown(f: Formats, raw: Bytes, start: nat, want: seq<Entry>, es: seq<Entry>, offset: nat, e: Entry, b: nat)
    requires |es| < |want| && e == want[|es|]
    requires ReadSoFar(f, raw, start, want, es, offset) && EntryAt(f, raw, offset, e, b)
    ensures ReadSoFar(f, raw, start, want, es + [e], b)
  {
    EntriesSnoc(f, raw, start, es, offset, e, b);
    assert want[..|es| + 1] == want[..|es|] + [e];
  }

  lemma NoEntries(f: Formats, raw: Bytes, start: nat)
    requires start <= |raw|
    ensures EntriesAt(f, raw, start, [], start)
  {}

  lemma EntryInside(f: Formats, raw: Bytes, a: nat, e: Entry, b: nat)
    requires EntryAt(f, raw, a, e, b)
    ensures b <= |raw|
  {}

  lemma EntriesInside(f: Formats, raw: Bytes, a: nat, es: seq<Entry>, b: nat)
    requires EntriesAt(f, raw, a, es, b)
    ensures b <= |raw|
  {}

  lemma {:induction false} EntriesJoin(f: Formats, raw: Bytes, a: nat, es: seq<Entry>, b: nat, more: seq<Entry>, c: nat)
    requires EntriesAt(f, raw, a, es, b) && EntriesAt(f, raw, b, more, c)
    ensures EntriesAt(f, raw, a, es + more, c)
    decreases |more|
  {
    hide EntryAt, EntriesAt;
    if more == [] {
      assert es + more == es;
      EntriesInside(f, raw, a, es, b);
      NoEntries(f, raw, b);
      EntriesEnd(f, raw, b, more, b, c);
    } else {
      var front, last := more[..|more| - 1], more[|more| - 1];
      EntriesPrefix(f, raw, b, more, c, |more| - 1);
      var m: nat, d: nat :| EntriesAt(f, raw, b, front, m) && EntryAt(f, raw, m, last, d) && d <= c;
      EntriesSnoc(f, raw, b, front, m, last, d);
      assert front + [last] == more;
      EntriesEnd(f, raw, b, more, c, d);
      assert d == c;
      EntriesJoin(f, raw, a, es, b, front, m);
      EntriesSnoc(f, raw, a, es + front, m, last, c);
      assert es + front + [last] == es + more;
    }
  }

  /** Printed one after the other, and read so: the first list ends where the second starts. */
  lemma {:induction false} EntriesSplit(f: Formats, raw: Bytes, a: nat, es: seq<Entry>, more: seq<Entry>, c: nat)
    requires EntriesAt(f, raw, a, es + more, c)
    ensures exists b: nat :: EntriesAt(f, raw, a, es, b) && EntriesAt(f, raw, b, more, c)
    decreases |more|
  {
    hide EntryAt, EntriesAt;
    if more == [] {
      assert es + more == es;
      EntriesInside(f, raw, a, es, c);
      NoEntries(f, raw, c);
    } else {
      var k := |more| - 1;
      EntriesPrefix(f, raw, a, es + more, c, |es| + k);
      assert (es + more)[..|es| + k] == es + more[..k];
      var m: nat, d: nat :| EntriesAt(f, raw, a, es + more[..k], m) && EntryAt(f, raw, m, more[k], d);
      EntriesSnoc(f, raw, a, es + more[..k], m, more[k], d);
      assert es + more[..k] + [more[k]] == es + more;
      EntriesEnd(f, raw, a, es + more, c, d);
      EntriesSplit(f, raw, a, es, more[..k], m);
      var b: nat :| EntriesAt(f, raw, a, es, b) && EntriesAt(f, raw, b, more[..k], m);
      EntriesSnoc(f, raw, b, more[..k], m, more[k], c);
      assert more[..k] + [more[k]] == more;
    }
  }

  /** Bytes are read as entries in one way: two lists of one length that start together are the same. */
  lemma {:induction false} EntriesUnique(f: Formats, raw: Bytes, a: nat, es: seq<Entry>, b: nat, more: seq<Entry>,
                                         c: nat)
    requires Faithful(f) && |es| == |more|
    requires EntriesAt(f, raw, a, es, b) && EntriesAt(f, raw, a, more, c)
    ensures es == more
    decreases |es|
  {
    hide Power, Digits, Value, EntryAt, EntriesAt, Faithful;
    if es != [] {
      var k := |es| - 1;
      EntriesPrefix(f, raw, a, es, b, k);
      EntriesPrefix(f, raw, a, more, c, k);
      var m: nat, d: nat :| EntriesAt(f, raw, a, es[..k], m) && EntryAt(f, raw, m, es[k], d);
      var m': nat, d': nat :| EntriesAt(f, raw, a, more[..k], m') && EntryAt(f, raw, m', more[k], d');
      EntriesUnique(f, raw, a, es[..k], m, more[..k], m');
      EntriesEnd(f, raw, a, es[..k], m, m');
      EntryUnique(f, raw, m, es[k], d, more[k], d');
      assert es == es[..k] + [es[k]] && more == more[..k] + [more[k]];
    }
  }

  // ----- Parsing

  /** The entries of the tables, in the header's order: found exactly when they are there. */
  method ReadTables(f: Formats, raw: Bytes, start: nat, tables: seq<string>)
    returns (ok: bool, data: map<string, Bytes>, offset: nat, es: seq<Entry>)
    requires Faithful(f) && start <= |raw|
    ensures ok ==> Names(es) == tables && data == ByName(es) && EntriesAt(f, raw, start, es, offset)
    ensures forall want: seq<Entry>, b: nat :: Names(want) == tables && EntriesAt(f, raw, start, want, b) ==>
      ok && want == es && b == offset
  {
    hide EntriesAt, EntryAt, Faithful, ByName;
    ok, data, offset, es := false, ByName([]), start, [];
    NoEntries(f, raw, start);
    forall want: seq<Entry>, b: nat | Names(want) == tables && EntriesAt(f, raw, start, want, b)
      ensures ReadSoFar(f, raw, start, want, es, offset)
    {}
    for i := 0 to |tables|
      invariant |es| == i && Names(es) == tables[..i] && data == ByName(es)
      invariant EntriesAt(f, raw, start, es, offset)
      invariant offset <= |raw|
      invariant forall want: seq<Entry>, b: nat :: Names(want) == tables && EntriesAt(f, raw, start, want, b) ==>
        ReadSoFar(f, raw, start, want, es, offset)
    {
      var r := ReadEntry(f, raw, offset);
      forall want: seq<Entry>, b: nat | Names(want) == tables && EntriesAt(f, raw, start, want, b)
        ensures r.Some? && r.value.0 == want[i] && r.value.0.name == tables[i]
        ensures ReadSoFar(f, raw, start, want, es + [r.value.0], r.value.1)
      {
        NextWanted(f, raw, start, want, b, es, offset);
        Grown(f, raw, start, want, es, offset, r.value.0, r.value.1);
      }
      if r.None? || r.value.0.name != tables[i] {
        return;
      }
      ByNameSnoc(es, r.value.0);
      EntriesSnoc(f, raw, start, es, offset, r.value.0, r.value.1);
      EntryInside(f, raw, offset, r.value.0, r.value.1);
      data := data[r.value.0.name := r.value.0.data];
      es, offset := es + [r.value.0], r.value.1;
    }
    ok := true;
    forall want: seq<Entry>, b: nat | Names(want) == tables && EntriesAt(f, raw, start, want, b)
      ensures want == es && b == offset
    {
      assert want[..|es|] == es && want == es;
      EntriesEnd(f, raw, start, es, offset, b);
    }
  }

  /** What the header's avatar items ask of the entries es, so far. */
  ghost predicate Wanted(f: Formats, items: seq<Json>, es: seq<Entry>) {
    |es| <= |items| && Distinct(Names(es)) && forall i :: 0 <= i < |es| ==> Matches(f, items[i], es[i])
  }

  /** All that the header's avatar items ask for, printed from start up to b. */
  ghost predicate WantedAt(f: Formats, raw: Bytes, start: nat, items: seq<Json>, es: seq<Entry>, b: nat) {
    |es| == |items| && Wanted(f, items, es) && EntriesAt(f, raw, start, es, b)
  }

  lemma NothingWanted(f: Formats, items: seq<Json>)
    ensures Wanted(f, items, [])
  {}

  lemma NameNeeded(f: Formats, item: Json)
    ensures forall e :: Matches(f, item, e) ==>
      item.Object? && "name" in item.fields && item.fields["name"].Text? && AvatarName(item.fields["name"].text)
  {}

  lemma WantedNext(f: Formats, items: seq<Json>, want: seq<Entry>, es: seq<Entry>)
    requires |want| == |items| && Wanted(f, items, want) && |es| < |want| && want[..|es|] == es
    ensures Matches(f, items[|es|], want[|es|]) && want[|es|].name !in Names(es)
  {
    assert Names(es) == Names(want)[..|es|] && Names(want)[|es|] == want[|es|].name;
  }

  lemma WantedSnoc(f: Formats, items: seq<Json>, es: seq<Entry>, e: Entry)
    requires Wanted(f, items, es) && |es| < |items| && Matches(f, items[|es|], e) && e.name !in Names(es)
    ensures Wanted(f, items, es + [e])
  {
    hide Matches;
    NamesSnoc(es, e);
    DistinctSnoc(Names(es), e.name);
    hide Distinct;
    forall i | 0 <= i <= |es|
      ensures Matches(f, items[i], (es + [e])[i])
    {
      if i < |es| {
        assert (es + [e])[i] == es[i];
      }
    }
  }

  lemma NamesSnoc(es: seq<Entry>, e: Entry)
    ensures Names(es + [e]) == Names(es) + [e.name]
  {}

  lemma DistinctSnoc(names: seq<string>, name: string)
    requires Distinct(names) && name !in names
    ensures Distinct(names + [name])
  {}

  lemma WantedSizes(f: Formats, items: seq<Json>, es: seq<Entry>)
    requires Wanted(f, items, es)
    ensures forall i :: 0 <= i < |es| ==> |es[i].data| <= 5_242_880
  {}

  method ReadAvatars(f: Formats, raw: Bytes, start: nat, items: seq<Json>)
    returns (ok: bool, data: map<string, Bytes>, offset: nat, es: seq<Entry>)
    requires Faithful(f) && start <= |raw|
    ensures ok ==> |es| == |items| && Wanted(f, items, es) && data == ByName(es) && EntriesAt(f, raw, start, es, offset)
    ensures ok ==> forall i :: 0 <= i < |es| ==> |es[i].data| <= 5_242_880
    ensures forall want: seq<Entry>, b: nat :: WantedAt(f, raw, start, items, want, b) ==>
      ok && want == es && b == offset
  {
    hide EntriesAt, EntryAt, Faithful, ByName, AvatarName, Wanted;
    ok, data, offset, es := false, ByName([]), start, [];
    NoEntries(f, raw, start);
    NothingWanted(f, items);
    for i := 0 to |items|
      invariant |es| == i && Wanted(f, items, es) && data == ByName(es)
      invariant EntriesAt(f, raw, start, es, offset)
      invariant offset <= |raw|
      invariant forall want: seq<Entry>, b: nat :: WantedAt(f, raw, start, items, want, b) ==>
        ReadSoFar(f, raw, start, want, es, offset)
    {
      var item := items[i];
      if !(item.Object? && "name" in item.fields && item.fields["name"].Text? && AvatarName(item.fields["name"].text)) {
        NameNeeded(f, item);
        forall want: seq<Entry>, b: nat | WantedAt(f, raw, start, items, want, b)
          ensures false
        {
          WantedNext(f, items, want, es);
        }
        return;
      }
      var name := item.fields["name"].text;
      var r := ReadEntry(f, raw, offset);
      forall want: seq<Entry>, b: nat | WantedAt(f, raw, start, items, want, b)
        ensures r.Some? && r.value.0 == want[i] && Matches(f, item, r.value.0) && r.value.0.name !in Names(es)
        ensures ReadSoFar(f, raw, start, want, es + [r.value.0], r.value.1)
      {
        NextWanted(f, raw, start, want, b, es, offset);
        Grown(f, raw, start, want, es, offset, r.value.0, r.value.1);
        WantedNext(f, items, want, es);
      }
      if r.None? {
        return;
      }
      var e := r.value.0;
      if e.name != name || e.name in data || |e.data| > MAX_AVATAR_BYTES
         || !("sha256" in item.fields && item.fields["sha256"] == Text(f.sha256(e.data))) {
        return;
      }
      ByNameSnoc(es, e);
      WantedSnoc(f, items, es, e);
      EntriesSnoc(f, raw, start, es, offset, e, r.value.1);
      EntryInside(f, raw, offset, e, r.value.1);
      data := data[e.name := e.data];
      es, offset := es + [e], r.value.1;
    }
    ok := true;
    WantedSizes(f, items, es);
    forall want: seq<Entry>, b: nat | WantedAt(f, raw, start, items, want, b)
      ensures want == es && b == offset
    {
      assert want[..|es|] == es && want == es;
      EntriesEnd(f, raw, start, es, offset, b);
    }
  }

  /**
   The parser accepts exactly the backups and returns what they contain; every other input is refused.
   */
  method ParseBackup(f: Formats, raw: Bytes) returns (r: Option<Parsed>)
    requires Faithful(f)
    ensures forall header, c :: IsBackup(f, raw, header, c) ==> r == Some(ResultOf(c))
    ensures r.Some? ==> exists header, c :: IsBackup(f, raw, header, c) && r.value == ResultOf(c)
  {
    hide EntriesAt, EntryAt, Faithful, ByName, Matches, ReadHeader;
    r := None;
    forall header, c | IsBackup(f, raw, header, c)
      ensures |raw| >= 4 && Value(raw[..4]) == |header| && raw[4..4 + |header|] == header
    {
      ValueOfDigits(|header|, 4);
    }
    if |raw| < 4 {
      return;
    }
    var size := Value(raw[..4]);
    if size > |raw| - 4 {
      return;
    }
    var header := raw[4..4 + size];
    var plan := ReadHeader(f, header);
    if plan.None? {
      return;
    }
    var start := 4 + size;
    var ok, tableData, middle, tables := ReadTables(f, raw, start, plan.value.tables);
    forall c | IsBackup(f, raw, header, c)
      ensures ok && c.tables == tables && WantedAt(f, raw, middle, plan.value.avatars, c.avatars, |raw|)
    {
      EntriesSplit(f, raw, start, c.tables, c.avatars, |raw|);
    }
    if !ok {
      return;
    }
    EntriesInside(f, raw, start, tables, middle);
    var ok2, avatarData, end, avatars := ReadAvatars(f, raw, middle, plan.value.avatars);
    if !ok2 || end != |raw| {
      return;
    }
    ghost var c := Contents(tables, avatars);
    EntriesJoin(f, raw, start, tables, middle, avatars, end);
    DigitsOfValue(raw[..4]);
    assert IsBackup(f, raw, header, c);
    r := Some(Parsed(plan.value.tables, tableData, avatarData));
  }

  /** A byte string is a backup in one way only. */
  lemma BackupsAreUnambiguous(f: Formats, raw: Bytes, header: Bytes, c: Contents, header': Bytes, c': Contents)
    requires Faithful(f) && IsBackup(f, raw, header, c) && IsBackup(f, raw, header', c')
    ensures header == header' && c == c'
  {
    ValueOfDigits(|header|, 4);
    ValueOfDigits(|header'|, 4);
    EntriesUnique(f, raw, 4 + |header|, c.tables + c.avatars, |raw|, c'.tables + c'.avatars, |raw|);
    assert |c.tables| == |c'.tables|;
    assert c.tables == (c.tables + c.avatars)[..|c.tables|] && c.avatars == (c.tables + c.avatars)[|c.tables|..];
    assert c'.tables == (c'.tables + c'.avatars)[..|c.tables|] && c'.avatars == (c'.tables + c'.avatars)[|c.tables|..];
  }

  // ----- Writing

  /** The stream a backup is written to. */
  class Output {
    var written: Bytes

    constructor ()
      ensures written == []
    {
      written := [];
    }

    method Write(b: Bytes)
      modifies this
      ensures written == old(written) + b
    {
      written := written + b;
    }
  }

  /** An entry that cannot be written raises; a name too long leaves the stream alone, data too long does not. */
  method WriteEntry(f: Formats, output: Output, e: Entry) returns (ok: bool)
    modifies output
    ensures ok <==> Writable(f, e)
    ensures ok ==> output.written == old(output.written) + Printed(f, e)
    ensures old(output.written) <= output.written
    ensures f.utf8(e.name).None? || |f.utf8(e.name).value| >= Power(2) ==> output.written == old(output.written)
  {
    var name := f.utf8(e.name);
    if name.None? || |name.value| >= 65536 {
      return false;
    }
    output.Write(Digits(|name.value|, 2));
    output.Write(name.value);
    if |e.data| >= 0x1_0000_0000_0000_0000 {
      return false;
    }
    output.Write(Digits(|e.data|, 8));
    output.Write(e.data);
    ok := true;
  }

  function Manifest(f: Formats, avatars: seq<Entry>): seq<Json> {
    seq(|avatars|, i requires 0 <= i < |avatars| =>
      Object(map["name" := Text(avatars[i].name), "sha256" := Text(f.sha256(avatars[i].data))]))
  }

  function HeaderOf(f: Formats, c: Contents): Json {
    Object(map["version" := Number(2.0),
               "tables" := List(seq(|c.tables|, i requires 0 <= i < |c.tables| => Text(c.tables[i].name))),
               "avatars" := List(Manifest(f, c.avatars))])
  }

  predicate AllWritable(f: Formats, c: Contents) {
    |f.dumps(HeaderOf(f, c))| < Power(4) && forall e :: e in c.tables + c.avatars ==> Writable(f, e)
  }

  function Archive(f: Formats, c: Contents): Bytes
    requires AllWritable(f, c)
  {
    var header := f.dumps(HeaderOf(f, c));
    Digits(|header|, 4) + header + PrintedAll(f, c.tables + c.avatars)
  }

  lemma {:induction false} PrintedAllJoins(f: Formats, es: seq<Entry>, more: seq<Entry>)
    requires forall e :: e in es + more ==> Writable(f, e)
    ensures PrintedAll(f, es + more) == PrintedAll(f, es) + PrintedAll(f, more)
  {
    hide Writable, Printed;
    assert forall e :: e in es || e in more ==> e in es + more;
    if more == [] {
      assert es + more == es;
    } else {
      var k := |more| - 1;
      assert (es + more)[..|es + more| - 1] == es + more[..k];
      PrintedAllJoins(f, es, more[..k]);
    }
  }

  method WriteEntries(f: Formats, output: Output, es: seq<Entry>) returns (ok: bool)
    modifies output
    ensures ok <==> forall e :: e in es ==> Writable(f, e)
    ensures ok ==> output.written == old(output.written) + PrintedAll(f, es)
  {
    hide Writable, Printed;
    for i := 0 to |es|
      invariant forall e :: e in es[..i] ==> Writable(f, e)
      invariant output.written == old(output.written) + PrintedAll(f, es[..i])
    {
      assert es[i] in es && es[..i + 1] == es[..i] + [es[i]] && es[..i + 1][..i] == es[..i];
      ok := WriteEntry(f, output, es[i]);
      if !ok {
        return;
      }
    }
    assert es[..|es|] == es;
    ok := true;
  }

  /** The whole archive is written, or writing raises because the header or some entry does not fit. */
  method WriteBackup(f: Formats, output: Output, c: Contents) returns (ok: bool)
    modifies output
    ensures ok <==> AllWritable(f, c)
    ensures ok ==> output.written == old(output.written) + Archive(f, c)
  {
    hide Writable, HeaderOf, Printed, Digits;
    assert forall e :: e in c.tables + c.avatars <==> e in c.tables || e in c.avatars;
    var header := f.dumps(HeaderOf(f, c));
    if |header| >= 0x1_0000_0000 {
      return false;
    }
    output.Write(Digits(|header|, 4));
    output.Write(header);
    ok := WriteEntries(f, output, c.tables);
    if ok {
      ok := WriteEntries(f, output, c.avatars);
    }
    if ok {
      PrintedAllJoins(f, c.tables, c.avatars);
    }
  }

  /** What the backup route hands the writer: distinct tables, and the avatar files it kept, by file name. */
  predicate Exportable(c: Contents) {
    Distinct(Names(c.tables)) && Distinct(Names(c.avatars))
    && forall e :: e in c.avatars ==> AvatarName(e.name) && |e.data| <= MAX_AVATAR_BYTES
  }

  /** The header that is written announces what is written. */
  lemma HeaderReads(f: Formats, c: Contents)
    requires Exportable(c)
    requires f.loads(f.dumps(HeaderOf(f, c))) == Some(HeaderOf(f, c))
    ensures ReadHeader(f, f.dumps(HeaderOf(f, c))) == Some(Plan(Names(c.tables), Manifest(f, c.avatars)))
    ensures Announced(f, Plan(Names(c.tables), Manifest(f, c.avatars)), c)
  {
    hide AvatarName;
    var items := HeaderOf(f, c).fields["tables"].items;
    assert forall i :: 0 <= i < |items| ==> items[i] == Text(c.tables[i].name);
    assert Texts(items).value == Names(c.tables);
    forall i | 0 <= i < |c.avatars|
      ensures Matches(f, Manifest(f, c.avatars)[i], c.avatars[i])
    {
      assert c.avatars[i] in c.avatars;
    }
  }

  /** Every backup that can be written is one the parser accepts, with the contents that went in. */
  lemma ArchiveIsBackup(f: Formats, c: Contents)
    requires AllWritable(f, c) && Exportable(c)
    requires f.loads(f.dumps(HeaderOf(f, c))) == Some(HeaderOf(f, c))
    ensures IsBackup(f, Archive(f, c), f.dumps(HeaderOf(f, c)), c)
  {
    hide Digits, Power, PrintedAll, ReadHeader, Announced, Writable;
    var header := f.dumps(HeaderOf(f, c));
    var raw := Archive(f, c);
    var start := 4 + |header|;
    assert raw[..4] == Digits(|header|, 4) && raw[4..start] == header;
    assert raw[start..|raw|] == PrintedAll(f, c.tables + c.avatars);
    HeaderReads(f, c);
  }

  /** Writing then parsing gives back the tables and the avatars. */
  method RoundTrip(f: Formats, c: Contents) returns (r: Option<Parsed>)
    requires Faithful(f) && AllWritable(f, c) && Exportable(c)
    requires f.loads(f.dumps(HeaderOf(f, c))) == Some(HeaderOf(f, c))
    ensures r == Some(ResultOf(c))
  {
    hide Power, Digits, IsBackup, Faithful, AllWritable, Exportable, HeaderOf, Archive, ResultOf;
    var output := new Output();
    var ok := WriteBackup(f, output, c);
    ArchiveIsBackup(f, c);
    assert output.written == Archive(f, c);
    assert IsBackup(f, output.written, f.dumps(HeaderOf(f, c)), c);
    r := ParseBackup(f, output.written);
  }
}
