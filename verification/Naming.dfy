/**
 How a scheduled execution gets its name: the colon-joined identifier and Unix second are hashed to 64 bits, packed
 little-endian into a UUID, written as text, stripped of dashes and cut to 19 characters.

 The hash (64-bit FNV-1 in the source) is a parameter. Nothing is assumed of it here beyond what a lemma states.
 */
module Naming {

  type Byte = x: int | 0 <= x < 256
  type Uint64 = x: int | 0 <= x < 0x1_0000_0000_0000_0000

  datatype Identifier = Identifier(project: string, domain: string, name: string, version: string)

  // ------------------------------------------------------------------------------------------------------------
  // Bytes and hexadecimal text
  // ------------------------------------------------------------------------------------------------------------

  function LittleEndian(v: nat, n: nat): (b: seq<Byte>)
    ensures |b| == n
  {
    if n == 0 then [] else [v % 256] + LittleEndian(v / 256, n - 1)
  }

  function FromLittleEndian(b: seq<Byte>): nat {
    if b == [] then 0 else b[0] + 256 * FromLittleEndian(b[1..])
  }

  function Pow256(n: nat): nat { if n == 0 then 1 else 256 * Pow256(n - 1) }

  lemma {:induction false} LittleEndianRoundTrip(v: nat, n: nat)
    requires v < Pow256(n)
    ensures FromLittleEndian(LittleEndian(v, n)) == v
  {
    if n > 0 {
      assert v / 256 < Pow256(n - 1);
      LittleEndianRoundTrip(v / 256, n - 1);
      assert LittleEndian(v, n)[1..] == LittleEndian(v / 256, n - 1);
    }
  }

  lemma LittleEndianStep(v: nat, n: nat)
    requires n > 0
    ensures LittleEndian(v, n) == [v % 256] + LittleEndian(v / 256, n - 1)
  {
  }

  lemma LittleEndianNone(v: nat)
    ensures LittleEndian(v, 0) == []
  {
  }

  function Zeros(n: nat): (b: seq<Byte>)
    ensures |b| == n && forall i :: 0 <= i < n ==> b[i] == 0
  {
    seq(n, i => 0)
  }

  /** The UUID of a hash: eight little-endian bytes in a buffer of sixteen. */
  method GetExecutionIdentifier(hash: Uint64) returns (uuid: seq<Byte>)
    ensures uuid == LittleEndian(hash, 8) + Zeros(8)
  {
    hide LittleEndian;
    var b := new Byte[16](i => 0);
    var v: nat := hash;
    for i := 0 to 8
      invariant LittleEndian(hash, 8) == b[..i] + LittleEndian(v, 8 - i)
      invariant b[8..] == Zeros(8)
    {
      LittleEndianStep(v, 8 - i);
      ghost var done := b[..i];
      b[i] := v % 256;
      assert b[..i + 1] == done + [v % 256];
      v := v / 256;
    }
    LittleEndianNone(v);
    uuid := b[..];
    assert uuid == b[..8] + b[8..];
  }

  function HexDigit(n: int): char
    requires 0 <= n < 16
  {
    "0123456789abcdef"[n]
  }

  function HexValue(c: char): (n: int)
    ensures 0 <= n < 16
  {
    if '0' <= c <= '9' then c as int - '0' as int
    else if 'a' <= c <= 'f' then c as int - 'a' as int + 10
    else 0
  }

  lemma HexDigitRoundTrip(n: int)
    requires 0 <= n < 16
    ensures HexValue(HexDigit(n)) == n && HexDigit(n) != '-'
  {
  }

  function Hex(b: seq<Byte>): (s: string)
    ensures |s| == 2 * |b|
  {
    if b == [] then "" else [HexDigit(b[0] / 16), HexDigit(b[0] % 16)] + Hex(b[1..])
  }

  function Unhex(s: string): seq<Byte> {
    if |s| < 2 then [] else [16 * HexValue(s[0]) + HexValue(s[1])] + Unhex(s[2..])
  }

  lemma {:induction false} HexRoundTrip(b: seq<Byte>)
    ensures Unhex(Hex(b)) == b
  {
    if b != [] {
      HexDigitRoundTrip(b[0] / 16);
      HexDigitRoundTrip(b[0] % 16);
      HexRoundTrip(b[1..]);
      assert Hex(b)[2..] == Hex(b[1..]);
    }
  }

  lemma {:induction false} HexAppend(a: seq<Byte>, b: seq<Byte>)
    ensures Hex(a + b) == Hex(a) + Hex(b)
  {
    if a == [] {
      assert a + b == b;
    } else {
      assert (a + b)[1..] == a[1..] + b;
      HexAppend(a[1..], b);
    }
  }

  /** `uuid.UUID.String`: 8-4-4-4-12 lower-case hexadecimal digits. */
  function UuidText(b: seq<Byte>): string
    requires |b| == 16
  {
    Hex(b[..4]) + "-" + Hex(b[4..6]) + "-" + Hex(b[6..8]) + "-" + Hex(b[8..10]) + "-" + Hex(b[10..])
  }

  function RemoveDashes(s: string): string {
    if s == "" then "" else (if s[0] == '-' then "" else [s[0]]) + RemoveDashes(s[1..])
  }

  lemma {:induction false} RemoveDashesAppend(a: string, b: string)
    ensures RemoveDashes(a + b) == RemoveDashes(a) + RemoveDashes(b)
  {
    if a == "" {
      assert a + b == b;
    } else {
      assert (a + b)[1..] == a[1..] + b;
      RemoveDashesAppend(a[1..], b);
    }
  }

  lemma {:induction false} RemoveDashesHex(b: seq<Byte>)
    ensures RemoveDashes(Hex(b)) == Hex(b)
  {
    if b != [] {
      HexDigitRoundTrip(b[0] / 16);
      HexDigitRoundTrip(b[0] % 16);
      RemoveDashesHex(b[1..]);
      var s := Hex(b);
      assert s[1..][1..] == s[2..] == Hex(b[1..]);
      assert RemoveDashes(s) == [s[0]] + RemoveDashes(s[1..]);
      assert RemoveDashes(s[1..]) == [s[1]] + RemoveDashes(s[1..][1..]);
    }
  }

  lemma RemoveDashesPart(b: seq<Byte>, rest: string)
    ensures RemoveDashes(Hex(b) + "-" + rest) == Hex(b) + RemoveDashes(rest)
  {
    RemoveDashesAppend(Hex(b) + "-", rest);
    RemoveDashesAppend(Hex(b), "-");
    RemoveDashesHex(b);
    assert RemoveDashes("-") == "";
  }

  /** Stripping the dashes of a UUID gives back its hexadecimal digits. */
  lemma UuidTextWithoutDashes(b: seq<Byte>)
    requires |b| == 16
    ensures RemoveDashes(UuidText(b)) == Hex(b)
  {
    hide Hex, RemoveDashes;
    var p1, p2, p3, p4, p5 := b[..4], b[4..6], b[6..8], b[8..10], b[10..];
    var t4 := Hex(p4) + "-" + Hex(p5);
    var t3 := Hex(p3) + "-" + t4;
    var t2 := Hex(p2) + "-" + t3;
    assert UuidText(b) == Hex(p1) + "-" + t2;
    RemoveDashesPart(p1, t2);
    RemoveDashesPart(p2, t3);
    RemoveDashesPart(p3, t4);
    RemoveDashesPart(p4, Hex(p5));
    RemoveDashesHex(p5);
    HexAppend(p4, p5);
    HexAppend(p3, p4 + p5);
    HexAppend(p2, p3 + (p4 + p5));
    HexAppend(p1, p2 + (p3 + (p4 + p5)));
    assert b == p1 + (p2 + (p3 + (p4 + p5)));
  }

  // ------------------------------------------------------------------------------------------------------------
  // Execution names
  // ------------------------------------------------------------------------------------------------------------

  function ExecutionName(hash: Uint64): string
  {
    var uuid := LittleEndian(hash, 8) + Zeros(8);
    UuidTextWithoutDashes(uuid);
    "f" + RemoveDashes(UuidText(uuid))[..19]
  }

  /** Reads the hash back out of a name. */
  function HashOfName(name: string): nat
    requires |name| >= 17
  {
    FromLittleEndian(Unhex(name[1..17]))
  }

  lemma Pow256Of8()
    ensures Pow256(8) == 0x1_0000_0000_0000_0000
  {
    assert Pow256(2) == 0x1_0000;
    assert Pow256(4) == 0x1_0000_0000;
    assert Pow256(6) == 0x1_0000_0000_0000;
  }

  /** No bit of the hash is lost on the way to the name. */
  lemma ExecutionNameRoundTrip(hash: Uint64)
    ensures |ExecutionName(hash)| == 20 && ExecutionName(hash)[0] == 'f'
    ensures HashOfName(ExecutionName(hash)) == hash
  {
    hide LittleEndian, FromLittleEndian, Zeros, Hex, Unhex, RemoveDashes, UuidText, Pow256;
    var head, tail := LittleEndian(hash, 8), Zeros(8);
    UuidTextWithoutDashes(head + tail);
    HexAppend(head, tail);
    var digits := Hex(head) + Hex(tail);
    assert ExecutionName(hash) == "f" + digits[..19];
    assert ("f" + digits[..19])[1..17] == digits[..16] == Hex(head);
    HexRoundTrip(head);
    Pow256Of8();
    LittleEndianRoundTrip(hash, 8);
  }

  lemma ExecutionNameInjective(h1: Uint64, h2: Uint64)
    requires ExecutionName(h1) == ExecutionName(h2)
    ensures h1 == h2
  {
    ExecutionNameRoundTrip(h1);
    ExecutionNameRoundTrip(h2);
  }

  // ------------------------------------------------------------------------------------------------------------
  // Hash preimages
  // ------------------------------------------------------------------------------------------------------------

  function Decimal(n: nat): string {
    (if n < 10 then "" else Decimal(n / 10)) + [HexDigit(n % 10)]
  }

  function ParseDecimal(s: string): int {
    if s == "" then 0 else 10 * ParseDecimal(s[..|s| - 1]) + HexValue(s[|s| - 1])
  }

  lemma {:induction false} DecimalRoundTrip(n: nat)
    ensures ParseDecimal(Decimal(n)) == n
    ensures forall c :: c in Decimal(n) ==> '0' <= c <= '9'
  {
    HexDigitRoundTrip(n % 10);
    var digits := "0123456789abcdef";
    assert digits[n % 10] as int == '0' as int + n % 10;
    var s := Decimal(n);
    if n < 10 {
      assert s == [HexDigit(n)];
      assert s[..|s| - 1] == "";
    } else {
      DecimalRoundTrip(n / 10);
      assert s[..|s| - 1] == Decimal(n / 10);
    }
  }

  /** `%d` of an int64. */
  function FormatInt(n: int): string { if n < 0 then "-" + Decimal(-n) else Decimal(n) }

  function ParseInt(s: string): int {
    if s != "" && s[0] == '-' then -ParseDecimal(s[1..]) else ParseDecimal(s)
  }

  lemma FormatIntRoundTrip(n: int)
    ensures ParseInt(FormatInt(n)) == n && ':' !in FormatInt(n)
  {
    hide Decimal, ParseDecimal;
    if n < 0 {
      DecimalRoundTrip(-n);
      assert FormatInt(n)[1..] == Decimal(-n);
    } else {
      DecimalRoundTrip(n);
      assert Decimal(n) != "" ==> Decimal(n)[0] in Decimal(n);
    }
  }

  function SchedulePreimage(id: Identifier): string {
    id.project + ":" + (id.domain + ":" + (id.name + ":" + id.version))
  }

  function ExecutionPreimage(id: Identifier, unixSecond: int): string {
    id.project + ":" + (id.domain + ":" + (id.name + ":" + (id.version + ":" + FormatInt(unixSecond))))
  }

  /** Where the first colon is, or the end. */
  function FirstColon(s: string): (i: nat)
    ensures i <= |s|
  {
    if s == "" || s[0] == ':' then 0 else 1 + FirstColon(s[1..])
  }

  /** Where the last colon is, or the end. */
  function LastColon(s: string): (i: nat)
    ensures i <= |s|
  {
    if s == "" then 0
    else
      var n := |s| - 1;
      if s[n] == ':' then n else if LastColon(s[..n]) < n then LastColon(s[..n]) else |s|
  }

  function Head(s: string): string { s[..FirstColon(s)] }

  function Tail(s: string): string { if FirstColon(s) < |s| then s[FirstColon(s) + 1..] else "" }

  /** Project, domain and name end at the first three colons; the version is the rest. */
  function ParseSchedule(text: string): Identifier {
    Identifier(Head(text), Head(Tail(text)), Head(Tail(Tail(text))), Tail(Tail(Tail(text))))
  }

  /** The second comes after the last colon. */
  function ParseExecution(text: string): (Identifier, int) {
    var i := LastColon(text);
    (ParseSchedule(text[..i]), ParseInt(if i < |text| then text[i + 1..] else ""))
  }

  lemma {:induction false} FirstColonIs(a: string, r: string)
    requires ':' !in a
    ensures FirstColon(a + ":" + r) == |a|
  {
    if a != "" {
      FirstColonIs(a[1..], r);
      assert (a + ":" + r)[1..] == a[1..] + ":" + r;
    }
  }

  lemma {:induction false} LastColonIs(a: string, r: string)
    requires ':' !in r
    ensures LastColon(a + ":" + r) == |a|
  {
    if r != "" {
      var n := |r| - 1;
      LastColonIs(a, r[..n]);
      assert (a + ":" + r)[..|a| + 1 + n] == a + ":" + r[..n];
    }
  }

  lemma SplitFirst(a: string, r: string)
    requires ':' !in a
    ensures Head(a + ":" + r) == a && Tail(a + ":" + r) == r
  {
    FirstColonIs(a, r);
  }

  predicate Splittable(id: Identifier) { ':' !in id.project && ':' !in id.domain && ':' !in id.name }

  /** The text behind a job's name can be read back. The version may hold colons. */
  lemma SchedulePreimageRoundTrip(id: Identifier)
    requires Splittable(id)
    ensures ParseSchedule(SchedulePreimage(id)) == id
  {
    hide Head, Tail;
    SplitFirst(id.project, id.domain + ":" + (id.name + ":" + id.version));
    SplitFirst(id.domain, id.name + ":" + id.version);
    SplitFirst(id.name, id.version);
  }

  /** So can the text behind an execution's name. */
  lemma ExecutionPreimageRoundTrip(id: Identifier, unixSecond: int)
    requires Splittable(id)
    ensures ParseExecution(ExecutionPreimage(id, unixSecond)) == (id, unixSecond)
  {
    hide ParseSchedule, ParseInt, FormatInt, LastColon;
    assert ExecutionPreimage(id, unixSecond) == SchedulePreimage(id) + ":" + FormatInt(unixSecond);
    FormatIntRoundTrip(unixSecond);
    LastColonIs(SchedulePreimage(id), FormatInt(unixSecond));
    assert ExecutionPreimage(id, unixSecond)[..|SchedulePreimage(id)|] == SchedulePreimage(id);
    SchedulePreimageRoundTrip(id);
  }

  /** The preimage of an execution name determines the identifier and the second. */
  lemma ExecutionPreimageInjective(a: Identifier, s: int, b: Identifier, t: int)
    requires Splittable(a) && Splittable(b)
    requires ExecutionPreimage(a, s) == ExecutionPreimage(b, t)
    ensures a == b && s == t
  {
    ExecutionPreimageRoundTrip(a, s);
    ExecutionPreimageRoundTrip(b, t);
  }

  lemma SchedulePreimageInjective(a: Identifier, b: Identifier)
    requires Splittable(a) && Splittable(b)
    requires SchedulePreimage(a) == SchedulePreimage(b)
    ensures a == b
  {
    SchedulePreimageRoundTrip(a);
    SchedulePreimageRoundTrip(b);
  }

  /** With colons in a name or a version, two schedules can share every execution name, whatever the hash. */
  lemma ColonsCollide(unixSecond: int)
    ensures var a := Identifier("p", "d", "n:v", "w");
            var b := Identifier("p", "d", "n", "v:w");
            a != b && ExecutionPreimage(a, unixSecond) == ExecutionPreimage(b, unixSecond)
            && SchedulePreimage(a) == SchedulePreimage(b)
  {
    assert ("n:v" + ":" + "w") == ("n" + ":" + "v:w");
    assert ("n:v" + ":" + ("w" + ":" + FormatInt(unixSecond))) == ("n" + ":" + ("v:w" + ":" + FormatInt(unixSecond)));
  }

  predicate NoColons(id: Identifier) { Splittable(id) && ':' !in id.version }

  function Colons(s: string): nat { if s == "" then 0 else (if s[0] == ':' then 1 else 0) + Colons(s[1..]) }

  lemma {:induction false} ColonsOfConcat(a: string, b: string)
    ensures Colons(a + b) == Colons(a) + Colons(b)
  {
    if a == "" {
      assert a + b == b;
    } else {
      assert (a + b)[1..] == a[1..] + b;
      ColonsOfConcat(a[1..], b);
    }
  }

  lemma {:induction false} NoColonsCounted(s: string)
    ensures Colons(s) == 0 <==> ':' !in s
  {
    if s != "" {
      NoColonsCounted(s[1..]);
      assert s == [s[0]] + s[1..];
    }
  }

  lemma ColonsOfJoin(a: string, b: string)
    ensures Colons(a + ":" + b) == Colons(a) + 1 + Colons(b)
  {
    ColonsOfConcat(a + ":", b);
    ColonsOfConcat(a, ":");
    assert Colons(":") == 1;
  }

  function FieldColons(id: Identifier): nat { Colons(id.project) + Colons(id.domain) + Colons(id.name) + Colons(id.version) }

  lemma ColonsOfPreimage(id: Identifier)
    ensures Colons(SchedulePreimage(id)) == FieldColons(id) + 3
    ensures FieldColons(id) == 0 <==> NoColons(id)
  {
    hide Colons;
    ColonsOfJoin(id.name, id.version);
    ColonsOfJoin(id.domain, id.name + ":" + id.version);
    ColonsOfJoin(id.project, id.domain + ":" + (id.name + ":" + id.version));
    NoColonsCounted(id.project);
    NoColonsCounted(id.domain);
    NoColonsCounted(id.name);
    NoColonsCounted(id.version);
  }

  /** Another identifier with the same text: the boundary next to a colon is moved to it. */
  function Shifted(id: Identifier): Identifier
    requires !NoColons(id)
  {
    if ':' in id.project then Identifier(Head(id.project), Tail(id.project), id.domain, id.name + ":" + id.version)
    else if ':' in id.domain then Identifier(id.project, Head(id.domain), Tail(id.domain), id.name + ":" + id.version)
    else if ':' in id.name then Identifier(id.project, id.domain, Head(id.name), Tail(id.name) + ":" + id.version)
    else Identifier(id.project, id.domain, id.name + ":" + Head(id.version), Tail(id.version))
  }

  lemma {:induction false} HeadAndTail(s: string)
    requires ':' in s
    ensures s == Head(s) + ":" + Tail(s) && |Head(s)| < |s|
  {
    if s[0] != ':' {
      assert s == [s[0]] + s[1..];
      HeadAndTail(s[1..]);
    }
  }

  lemma ShiftedCollides(id: Identifier)
    requires !NoColons(id)
    ensures Shifted(id) != id && SchedulePreimage(Shifted(id)) == SchedulePreimage(id)
  {
    hide Head, Tail;
    var field := if ':' in id.project then id.project else if ':' in id.domain then id.domain
                 else if ':' in id.name then id.name else id.version;
    HeadAndTail(field);
  }

  /** The text of a job's name belongs to one identifier alone exactly when none of its fields holds a colon. */
  lemma ScheduleTextIsUniqueIff(id: Identifier)
    ensures (forall other :: SchedulePreimage(other) == SchedulePreimage(id) ==> other == id) <==> NoColons(id)
  {
    hide SchedulePreimage, Shifted;
    if NoColons(id) {
      forall other | SchedulePreimage(other) == SchedulePreimage(id) ensures other == id {
        ColonsOfPreimage(id);
        ColonsOfPreimage(other);
        SchedulePreimageInjective(other, id);
      }
    } else {
      ShiftedCollides(id);
    }
  }

  lemma ExecutionTextIs(id: Identifier, unixSecond: int)
    ensures ExecutionPreimage(id, unixSecond) == SchedulePreimage(id) + ":" + FormatInt(unixSecond)
    ensures Colons(ExecutionPreimage(id, unixSecond)) == FieldColons(id) + 4
  {
    assert ExecutionPreimage(id, unixSecond) == SchedulePreimage(id) + ":" + FormatInt(unixSecond);
    hide Colons, SchedulePreimage, ExecutionPreimage, FormatInt;
    ColonsOfPreimage(id);
    ColonsOfJoin(SchedulePreimage(id), FormatInt(unixSecond));
    FormatIntRoundTrip(unixSecond);
    NoColonsCounted(FormatInt(unixSecond));
  }

  /** The same for the text of an execution's name. */
  lemma ExecutionTextIsUniqueIff(id: Identifier, unixSecond: int)
    ensures (forall other, t :: ExecutionPreimage(other, t) == ExecutionPreimage(id, unixSecond) ==> other == id && t == unixSecond)
       <==> NoColons(id)
  {
    hide SchedulePreimage, ExecutionPreimage, Shifted, FormatInt;
    if NoColons(id) {
      forall other, t | ExecutionPreimage(other, t) == ExecutionPreimage(id, unixSecond) ensures other == id && t == unixSecond {
        ColonsOfPreimage(id);
        ColonsOfPreimage(other);
        ExecutionTextIs(id, unixSecond);
        ExecutionTextIs(other, t);
        ExecutionPreimageInjective(other, t, id, unixSecond);
      }
    } else {
      ShiftedCollides(id);
      ExecutionTextIs(id, unixSecond);
      ExecutionTextIs(Shifted(id), unixSecond);
    }
  }

  // ------------------------------------------------------------------------------------------------------------
  // The names in use
  // ------------------------------------------------------------------------------------------------------------

  type Hash = string -> Uint64

  function ScheduleName(hash: Hash, id: Identifier): string { Decimal(hash(SchedulePreimage(id))) }

  function ScheduledExecutionName(hash: Hash, id: Identifier, unixSecond: int): string {
    ExecutionName(hash(ExecutionPreimage(id, unixSecond)))
  }

  /** Two scheduled executions share a name exactly when the hash confuses their preimages; where it does not, the name
      determines the schedule and the second. */
  lemma ScheduledExecutionNameCollides(hash: Hash, a: Identifier, s: int, b: Identifier, t: int)
    ensures ScheduledExecutionName(hash, a, s) == ScheduledExecutionName(hash, b, t)
       <==> hash(ExecutionPreimage(a, s)) == hash(ExecutionPreimage(b, t))
    ensures Splittable(a) && Splittable(b)
         && (ExecutionPreimage(a, s) != ExecutionPreimage(b, t) ==> hash(ExecutionPreimage(a, s)) != hash(ExecutionPreimage(b, t)))
         && ScheduledExecutionName(hash, a, s) == ScheduledExecutionName(hash, b, t)
        ==> a == b && s == t
  {
    ExecutionNameRoundTrip(hash(ExecutionPreimage(a, s)));
    ExecutionNameRoundTrip(hash(ExecutionPreimage(b, t)));
    if Splittable(a) && Splittable(b) && ExecutionPreimage(a, s) == ExecutionPreimage(b, t) {
      ExecutionPreimageInjective(a, s, b, t);
    }
  }

  /** The same for the key of the job store. */
  lemma ScheduleNameCollides(hash: Hash, a: Identifier, b: Identifier)
    ensures ScheduleName(hash, a) == ScheduleName(hash, b) <==> hash(SchedulePreimage(a)) == hash(SchedulePreimage(b))
    ensures Splittable(a) && Splittable(b)
         && (SchedulePreimage(a) != SchedulePreimage(b) ==> hash(SchedulePreimage(a)) != hash(SchedulePreimage(b)))
         && ScheduleName(hash, a) == ScheduleName(hash, b)
        ==> a == b
  {
    DecimalRoundTrip(hash(SchedulePreimage(a)));
    DecimalRoundTrip(hash(SchedulePreimage(b)));
    if Splittable(a) && Splittable(b) && SchedulePreimage(a) == SchedulePreimage(b) {
      SchedulePreimageInjective(a, b);
    }
  }
}
