/** PCI addresses as device identities (crates/core/src/model.rs:194-209) and the printers that
    must agree with them (crates/core/src/wddm.rs:788-802). */
module PciId {
  import opened Base

  // ---- characters and digits ----

  function Lower(c: char): char {
    if 'A' <= c <= 'Z' then c - 'A' + 'a' else c
  }

  function LowerAll(s: string): string {
    seq(|s|, i requires 0 <= i < |s| => Lower(s[i]))
  }

  predicate HexDigit(c: char) {
    '0' <= c <= '9' || 'a' <= c <= 'f' || 'A' <= c <= 'F'
  }

  predicate Hex(s: string, max: nat) {
    0 < |s| <= max && forall i :: 0 <= i < |s| ==> HexDigit(s[i])
  }

  // ---- the function of the source ----

  function IndexOf(s: string, c: char): Option<nat> {
    if s == "" then None
    else if s[0] == c then Some(0)
    else match IndexOf(s[1..], c)
      case None => None
      case Some(i) => Some(i + 1)
  }

  // str::split_once
  function SplitOnce(s: string, c: char): (r: Option<(string, string)>)
    ensures r.Some? ==> s == r.value.0 + [c] + r.value.1
    ensures r.None? ==> c !in s
  {
    match IndexOf(s, c)
    case None => IndexOfIsFirst(s, c); None
    case Some(i) => IndexOfIsFirst(s, c); Some((s[..i], s[i + 1..]))
  }

  lemma {:induction false} IndexOfIsFirst(s: string, c: char)
    ensures match IndexOf(s, c)
      case None => c !in s
      case Some(i) => i < |s| && s[i] == c && c !in s[..i]
  {
    if s != "" && s[0] != c {
      IndexOfIsFirst(s[1..], c);
      if IndexOf(s, c).Some? {
        var i := IndexOf(s, c).value;
        assert s[..i] == [s[0]] + s[1..][..i - 1];
      }
    }
  }

  function TrimZeros(s: string): string {
    if s != "" && s[0] == '0' then TrimZeros(s[1..]) else s
  }

  function Pad(s: string, width: nat): string
    decreases width - |s|
  {
    if |s| < width then Pad("0" + s, width) else s
  }

  function NormalizePciId(raw: string): Option<string> {
    var id := LowerAll(raw);
    match SplitOnce(id, ':')
    case None => None
    case Some((domain, rest)) =>
      match SplitOnce(rest, ':')
      case None => None
      case Some((bus, devfn)) =>
        match SplitOnce(devfn, '.')
        case None => None
        case Some((dev, func)) =>
          if !Hex(domain, 8) || !Hex(bus, 2) || !Hex(dev, 2) || !Hex(func, 1) then None
          else Some(Pad(TrimZeros(domain), 4) + ":" + Pad(bus, 2) + ":" + Pad(dev, 2) + "." + func)
  }

  // ---- what an id denotes ----

  function DigitValue(c: char): nat
    requires HexDigit(c)
  {
    if c <= '9' then (c - '0') as nat else if c >= 'a' then 10 + (c - 'a') as nat else 10 + (c - 'A') as nat
  }

  function Value(s: string): nat
    requires forall i :: 0 <= i < |s| ==> HexDigit(s[i])
  {
    if s == "" then 0 else 16 * Value(s[..|s| - 1]) + DigitValue(s[|s| - 1])
  }

  datatype Address = Address(domain: nat, bus: nat, dev: nat, func: nat)

  datatype Fields = Fields(domain: string, bus: string, dev: string, func: string) {
    predicate Hexadecimal() {
      Hex(domain, 8) && Hex(bus, 2) && Hex(dev, 2) && Hex(func, 1)
    }

    function Text(): string {
      domain + ":" + bus + ":" + dev + "." + func
    }

    function Denoted(): Address
      requires Hexadecimal()
    {
      Address(Value(domain), Value(bus), Value(dev), Value(func))
    }
  }

  // ---- the canonical spelling of an address ----

  function DigitChar(d: nat): char
    requires d < 16
  {
    if d < 10 then '0' + d as char else 'a' + (d - 10) as char
  }

  function Minimal(n: nat): string {
    if n == 0 then "" else Minimal(n / 16) + [DigitChar(n % 16)]
  }

  // Lower-case hexadecimal, zero-padded to at least `width` >= 1 digits.
  function HexPrint(n: nat, width: nat): string {
    Pad(Minimal(n), width)
  }

  function Canonical(a: Address): string {
    HexPrint(a.domain, 4) + ":" + HexPrint(a.bus, 2) + ":" + HexPrint(a.dev, 2) + "." + HexPrint(a.func, 1)
  }

  // ---- trimming and padding print the value ----

  lemma LowerDigit(c: char)
    ensures HexDigit(Lower(c)) <==> HexDigit(c)
    ensures HexDigit(c) ==> DigitValue(Lower(c)) == DigitValue(c) && DigitChar(DigitValue(c)) == Lower(c)
    ensures Lower(c) == ':' <==> c == ':'
    ensures Lower(c) == '.' <==> c == '.'
  {
  }

  lemma {:induction false} TrimSnoc(s: string, c: char)
    ensures TrimZeros(s + [c]) == if TrimZeros(s) == "" then (if c == '0' then "" else [c]) else TrimZeros(s) + [c]
  {
    if s == "" {
      assert s + [c] == [c] && [c][1..] == "";
    } else {
      assert (s + [c])[1..] == s[1..] + [c];
      if s[0] == '0' {
        TrimSnoc(s[1..], c);
      }
    }
  }

  lemma {:induction false} TrimmedIsMinimal(s: string)
    requires forall i :: 0 <= i < |s| ==> HexDigit(s[i])
    ensures TrimZeros(LowerAll(s)) == Minimal(Value(s))
  {
    if s != "" {
      var init, c := s[..|s| - 1], s[|s| - 1];
      TrimmedIsMinimal(init);
      hide TrimZeros, Minimal, DigitValue, Lower;
      assert LowerAll(s) == LowerAll(init) + [Lower(c)];
      TrimSnoc(LowerAll(init), Lower(c));
      LowerDigit(c);
      MinimalSnoc(Value(init), DigitValue(c));
    }
  }

  lemma MinimalSnoc(v: nat, d: nat)
    requires d < 16
    ensures Minimal(16 * v + d) == if v == 0 && d == 0 then "" else Minimal(v) + [DigitChar(d)]
    ensures Minimal(v) == "" <==> v == 0
  {
    assert (16 * v + d) / 16 == v && (16 * v + d) % 16 == d;
  }

  lemma {:induction false} PadTrimmed(s: string, width: nat)
    requires |s| <= width
    ensures Pad(TrimZeros(s), width) == Pad(s, width)
  {
    if s != "" && s[0] == '0' {
      PadTrimmed(s[1..], width);
      assert "0" + s[1..] == s;
    }
  }

  lemma {:induction false} PadDigits(s: string, width: nat)
    requires forall i :: 0 <= i < |s| ==> HexDigit(s[i])
    ensures |Pad(s, width)| == MaxNat(|s|, width)
    ensures forall i :: 0 <= i < |Pad(s, width)| ==> HexDigit(Pad(s, width)[i])
    ensures Value(Pad(s, width)) == Value(s)
    decreases width - |s|
  {
    if |s| < width {
      PadDigits("0" + s, width);
      LeadingZero(s);
    }
  }

  lemma {:induction false} LeadingZero(s: string)
    requires forall i :: 0 <= i < |s| ==> HexDigit(s[i])
    ensures Value("0" + s) == Value(s)
  {
    var z := "0" + s;
    if s == "" {
      assert z[..0] == "";
    } else {
      assert z[..|z| - 1] == "0" + s[..|s| - 1];
      LeadingZero(s[..|s| - 1]);
    }
  }

  lemma {:induction false} MinimalDigits(n: nat)
    ensures forall i :: 0 <= i < |Minimal(n)| ==> HexDigit(Minimal(n)[i])
    ensures Value(Minimal(n)) == n
  {
    if n > 0 {
      MinimalDigits(n / 16);
      var s := Minimal(n);
      assert s[..|s| - 1] == Minimal(n / 16);
      assert DigitValue(DigitChar(n % 16)) == n % 16;
    }
  }

  function Pow16(k: nat): nat {
    if k == 0 then 1 else 16 * Pow16(k - 1)
  }

  lemma {:induction false} MinimalFits(n: nat, k: nat)
    requires n < Pow16(k)
    ensures |Minimal(n)| <= k
  {
    if n > 0 {
      MinimalFits(n / 16, k - 1);
    }
  }

  lemma {:induction false} ValueBelow(s: string)
    requires forall i :: 0 <= i < |s| ==> HexDigit(s[i])
    ensures Value(s) < Pow16(|s|)
  {
    if s != "" {
      ValueBelow(s[..|s| - 1]);
    }
  }

  lemma {:induction false} PowMonotone(j: nat, k: nat)
    requires j <= k
    ensures Pow16(j) <= Pow16(k)
  {
    if j < k {
      PowMonotone(j, k - 1);
    }
  }

  // A field of at most `max` digits prints back as `max` or fewer digits of the same value.
  lemma FieldPrints(s: string, max: nat, width: nat)
    requires Hex(s, max) && 1 <= width <= max
    ensures Pad(TrimZeros(LowerAll(s)), width) == HexPrint(Value(s), width)
    ensures |s| <= width ==> Pad(LowerAll(s), width) == HexPrint(Value(s), width)
    ensures Hex(HexPrint(Value(s), width), max) && Value(HexPrint(Value(s), width)) == Value(s)
    ensures LowerAll(HexPrint(Value(s), width)) == HexPrint(Value(s), width)
  {
    hide Value, Minimal, Pad, TrimZeros, Pow16;
    TrimmedIsMinimal(s);
    if |s| <= width {
      PadTrimmed(LowerAll(s), width);
    }
    ValueBelow(s);
    PowMonotone(|s|, max);
    MinimalFits(Value(s), max);
    MinimalDigits(Value(s));
    PadDigits(Minimal(Value(s)), width);
    PrintIsLower(Value(s), width);
  }

  lemma {:induction false} PrintIsLower(n: nat, width: nat)
    ensures LowerAll(HexPrint(n, width)) == HexPrint(n, width)
  {
    MinimalIsLower(n);
    PadIsLower(Minimal(n), width);
  }

  lemma {:induction false} MinimalIsLower(n: nat)
    ensures LowerAll(Minimal(n)) == Minimal(n)
  {
    if n > 0 {
      MinimalIsLower(n / 16);
      var init := Minimal(n / 16);
      assert LowerAll(Minimal(n)) == LowerAll(init) + [DigitChar(n % 16)];
    }
  }

  lemma {:induction false} PadIsLower(s: string, width: nat)
    requires LowerAll(s) == s
    ensures LowerAll(Pad(s, width)) == Pad(s, width)
    decreases width - |s|
  {
    if |s| < width {
      assert LowerAll("0" + s) == "0" + LowerAll(s);
      PadIsLower("0" + s, width);
    }
  }

  // ---- which ids are accepted, and what they become ----

  lemma {:induction false} FirstIndex(s: string, c: char, k: nat)
    requires k < |s| && s[k] == c && forall j :: 0 <= j < k ==> s[j] != c
    ensures IndexOf(s, c) == Some(k)
  {
    if k > 0 {
      FirstIndex(s[1..], c, k - 1);
    }
  }

  lemma FirstSplit(a: string, c: char, b: string)
    requires c !in a
    ensures SplitOnce(a + [c] + b, c) == Some((a, b))
  {
    var s := a + [c] + b;
    assert forall k :: 0 <= k < |a| ==> s[k] == a[k];
    FirstIndex(s, c, |a|);
    assert s[..|a|] == a && s[|a| + 1..] == b;
  }

  lemma LowerHex(s: string, max: nat)
    ensures Hex(LowerAll(s), max) <==> Hex(s, max)
    ensures Hex(s, max) ==> ':' !in LowerAll(s) && '.' !in LowerAll(s)
  {
    forall i | 0 <= i < |s| ensures HexDigit(LowerAll(s)[i]) <==> HexDigit(s[i]) {
      LowerDigit(s[i]);
    }
    assert forall i :: 0 <= i < |s| ==> LowerAll(s)[i] == Lower(s[i]);
  }

  lemma LowerConcat(a: string, b: string)
    ensures LowerAll(a + b) == LowerAll(a) + LowerAll(b)
  {
  }

  function LowerFields(f: Fields): Fields {
    Fields(LowerAll(f.domain), LowerAll(f.bus), LowerAll(f.dev), LowerAll(f.func))
  }

  lemma LowerText(f: Fields)
    ensures LowerAll(f.Text()) == LowerFields(f).Text()
  {
  }

  // Splitting a well-formed id finds its fields.
  lemma SplitsIntoFields(f: Fields)
    requires ':' !in f.domain && ':' !in f.bus && '.' !in f.dev
    ensures SplitOnce(f.Text(), ':') == Some((f.domain, f.bus + ":" + (f.dev + "." + f.func)))
    ensures SplitOnce(f.bus + ":" + (f.dev + "." + f.func), ':') == Some((f.bus, f.dev + "." + f.func))
    ensures SplitOnce(f.dev + "." + f.func, '.') == Some((f.dev, f.func))
  {
    hide SplitOnce;
    assert f.Text() == f.domain + [':'] + (f.bus + ":" + (f.dev + "." + f.func));
    FirstSplit(f.domain, ':', f.bus + ":" + (f.dev + "." + f.func));
    FirstSplit(f.bus, ':', f.dev + "." + f.func);
    FirstSplit(f.dev, '.', f.func);
  }

  // An accepted id becomes the canonical spelling of the address it denotes.
  lemma NormalizesToCanonical(f: Fields)
    requires f.Hexadecimal()
    ensures NormalizePciId(f.Text()) == Some(Canonical(f.Denoted()))
  {
    hide SplitOnce, Value, HexPrint, Pad, TrimZeros, LowerAll;
    LowerHex(f.domain, 8);
    LowerHex(f.bus, 2);
    LowerHex(f.dev, 2);
    LowerHex(f.func, 1);
    LowerText(f);
    SplitsIntoFields(LowerFields(f));
    FieldPrints(f.domain, 8, 4);
    FieldPrints(f.bus, 2, 2);
    FieldPrints(f.dev, 2, 2);
    FieldPrints(f.func, 1, 1);
    PadFull(LowerAll(f.func), 1);
    LowerLength(f.func);
  }

  lemma LowerLength(s: string)
    ensures |LowerAll(s)| == |s|
  {
  }

  lemma PadFull(s: string, width: nat)
    ensures |s| >= width ==> Pad(s, width) == s
  {
  }

  // A separator of the lower-cased id is a separator of the id.
  lemma Unlower(id: string, x: string, c: char, y: string) returns (a: string, b: string)
    requires LowerAll(id) == x + [c] + y && c in ":."
    ensures id == a + [c] + b && LowerAll(a) == x && LowerAll(b) == y
  {
    a, b := id[..|x|], id[|x| + 1..];
    var low := LowerAll(id);
    assert forall i :: 0 <= i < |id| ==> low[i] == Lower(id[i]);
    LowerDigit(id[|x|]);
    assert low[|x|] == c;
    assert low[..|x|] == x && low[|x| + 1..] == y;
  }

  // Only well-formed ids are accepted.
  lemma AcceptedIsWellFormed(id: string) returns (f: Fields)
    requires NormalizePciId(id).Some?
    ensures f.Hexadecimal() && f.Text() == id
  {
    hide LowerAll;
    var (domain, rest) := SplitOnce(LowerAll(id), ':').value;
    var (bus, devfn) := SplitOnce(rest, ':').value;
    var (dev, func) := SplitOnce(devfn, '.').value;
    hide NormalizePciId;
    var a, r := Unlower(id, domain, ':', rest);
    var b, s := Unlower(r, bus, ':', devfn);
    var c, d := Unlower(s, dev, '.', func);
    f := Fields(a, b, c, d);
    LowerHex(a, 8);
    LowerHex(b, 2);
    LowerHex(c, 2);
    LowerHex(d, 1);
    assert a + ":" + (b + ":" + (c + "." + d)) == f.Text();
  }

  // ---- the equality that deduplication rests on ----

  // The canonical spelling is itself a well-formed id of the same address.
  lemma CanonicalDenotes(f: Fields) returns (g: Fields)
    requires f.Hexadecimal()
    ensures g.Hexadecimal() && g.Text() == Canonical(f.Denoted()) && g.Denoted() == f.Denoted()
  {
    hide Value, HexPrint;
    FieldPrints(f.domain, 8, 4);
    FieldPrints(f.bus, 2, 2);
    FieldPrints(f.dev, 2, 2);
    FieldPrints(f.func, 1, 1);
    g := Fields(HexPrint(Value(f.domain), 4), HexPrint(Value(f.bus), 2), HexPrint(Value(f.dev), 2), HexPrint(Value(f.func), 1));
  }

  lemma Idempotent(id: string)
    requires NormalizePciId(id).Some?
    ensures NormalizePciId(NormalizePciId(id).value) == NormalizePciId(id)
  {
    var f := AcceptedIsWellFormed(id);
    hide NormalizePciId;
    NormalizesToCanonical(f);
    var g := CanonicalDenotes(f);
    NormalizesToCanonical(g);
  }

  // A text spells at most one address.
  lemma DenotedIsUnique(f: Fields, g: Fields)
    requires f.Hexadecimal() && g.Hexadecimal() && f.Text() == g.Text()
    ensures f == g
  {
    hide SplitOnce;
    NoSeparators(f);
    NoSeparators(g);
    SplitsIntoFields(f);
    SplitsIntoFields(g);
  }

  lemma NoSeparators(f: Fields)
    requires f.Hexadecimal()
    ensures ':' !in f.domain && ':' !in f.bus && '.' !in f.dev
  {
  }

  // Two accepted ids are merged if and only if they denote the same address, whatever their
  // letter case and padding.
  lemma MergedIffSameAddress(f: Fields, g: Fields)
    requires f.Hexadecimal() && g.Hexadecimal()
    ensures NormalizePciId(f.Text()) == NormalizePciId(g.Text()) <==> f.Denoted() == g.Denoted()
  {
    hide NormalizePciId;
    NormalizesToCanonical(f);
    NormalizesToCanonical(g);
    if Canonical(f.Denoted()) == Canonical(g.Denoted()) {
      var f' := CanonicalDenotes(f);
      var g' := CanonicalDenotes(g);
      DenotedIsUnique(f', g');
    }
  }

  // ---- the printers ----

  function BdfString(bus: nat, device: nat, function_: nat): Option<string> {
    if bus > 0xFF || device > 0x1F || function_ > 0x7 then None
    else Some("0000:" + HexPrint(bus, 2) + ":" + HexPrint(device, 2) + "." + HexPrint(function_, 1))
  }

  // What is printed is an eight-bit bus, a five-bit device and a three-bit function.
  lemma PrintableIff(bus: nat, device: nat, function_: nat)
    ensures BdfString(bus, device, function_).Some? <==> bus < 256 && device < 32 && function_ < 8
  {
  }

  function Decimal(n: nat): string {
    if n < 10 then ['0' + n as char] else Decimal(n / 10) + ['0' + (n % 10) as char]
  }

  function SyntheticDeviceId(vendor: nat, device: nat, ordinal: nat): string {
    "wddm:" + HexPrint(vendor, 4) + ":" + HexPrint(device, 4) + ":" + Decimal(ordinal)
  }

  lemma HexPrintFits(n: nat, width: nat)
    requires 1 <= width && n < Pow16(width)
    ensures Hex(HexPrint(n, width), width) && Value(HexPrint(n, width)) == n
  {
    MinimalFits(n, width);
    MinimalDigits(n);
    PadDigits(Minimal(n), width);
  }

  lemma SmallPowers()
    ensures Pow16(1) == 16 && Pow16(2) == 256 && Pow16(4) > 0
  {
    assert Pow16(0) == 1 && Pow16(3) == 16 * Pow16(2);
  }

  lemma DomainZero()
    ensures HexPrint(0, 4) == "0000"
  {
    assert "0" + "" == "0" && "0" + "0" == "00" && "0" + "00" == "000" && "0" + "000" == "0000";
    assert Pad("000", 4) == Pad("0000", 4) == "0000";
    assert Pad("0", 4) == Pad("00", 4) == Pad("000", 4);
    assert Pad("", 4) == Pad("0", 4);
  }

  // What is printed for a bus address denotes exactly that address, in domain 0.
  lemma BdfDenotes(bus: nat, device: nat, function_: nat) returns (f: Fields)
    requires BdfString(bus, device, function_).Some?
    ensures f.Hexadecimal() && f.Text() == BdfString(bus, device, function_).value
    ensures f.Denoted() == Address(0, bus, device, function_)
  {
    SmallPowers();
    hide Value, HexPrint, Pow16;
    HexPrintFits(0, 4);
    DomainZero();
    HexPrintFits(bus, 2);
    HexPrintFits(device, 2);
    HexPrintFits(function_, 1);
    f := Fields("0000", HexPrint(bus, 2), HexPrint(device, 2), HexPrint(function_, 1));
  }

  // An id is merged with a printed bus address if and only if it denotes that address: the
  // printed form is already canonical.
  lemma MergedWithPrintedIff(id: string, bus: nat, device: nat, function_: nat)
    requires BdfString(bus, device, function_).Some?
    ensures NormalizePciId(id) == BdfString(bus, device, function_)
      <==> exists f: Fields :: f.Hexadecimal() && f.Text() == id && f.Denoted() == Address(0, bus, device, function_)
  {
    hide NormalizePciId, BdfString;
    var b := BdfDenotes(bus, device, function_);
    PrintedIsFixedPoint(bus, device, function_);
    if NormalizePciId(id) == BdfString(bus, device, function_) {
      var f := AcceptedIsWellFormed(id);
      MergedIffSameAddress(f, b);
      assert f.Text() == id;
    }
    if f: Fields :| f.Hexadecimal() && f.Text() == id && f.Denoted() == Address(0, bus, device, function_) {
      MergedIffSameAddress(f, b);
    }
  }

  lemma PrintedIsFixedPoint(bus: nat, device: nat, function_: nat)
    requires BdfString(bus, device, function_).Some?
    ensures NormalizePciId(BdfString(bus, device, function_).value) == BdfString(bus, device, function_)
  {
    hide NormalizePciId;
    hide HexPrint, Value;
    DomainZero();
    assert "0000" + ":" == "0000:";
    var f := BdfDenotes(bus, device, function_);
    NormalizesToCanonical(f);
  }

  // Different bus addresses are printed differently.
  lemma PrintedInjective(bus: nat, device: nat, function_: nat, bus': nat, device': nat, function': nat)
    requires BdfString(bus, device, function_).Some?
    requires BdfString(bus, device, function_) == BdfString(bus', device', function')
    ensures bus == bus' && device == device' && function_ == function'
  {
    hide BdfString;
    var f := BdfDenotes(bus, device, function_);
    var g := BdfDenotes(bus', device', function');
    DenotedIsUnique(f, g);
  }

  // ---- what is never merged ----

  // An id whose part before the first colon is not one to eight hexadecimal digits is refused.
  lemma ForeignPrefixRefused(prefix: string, rest: string)
    requires ':' !in prefix && !Hex(prefix, 8)
    ensures NormalizePciId(prefix + ":" + rest) == None
  {
    hide SplitOnce;
    LowerConcat(prefix, ":" + rest);
    LowerConcat(":", rest);
    assert LowerAll(":") == ":";
    assert prefix + (":" + rest) == prefix + ":" + rest;
    assert LowerAll(prefix + ":" + rest) == LowerAll(prefix) + [':'] + LowerAll(rest);
    forall i | 0 <= i < |prefix| ensures LowerAll(prefix)[i] != ':' {
      LowerDigit(prefix[i]);
    }
    FirstSplit(LowerAll(prefix), ':', LowerAll(rest));
    LowerHex(prefix, 8);
  }

  lemma SyntheticNeverAccepted(vendor: nat, device: nat, ordinal: nat)
    ensures NormalizePciId(SyntheticDeviceId(vendor, device, ordinal)) == None
  {
    var rest := HexPrint(vendor, 4) + ":" + HexPrint(device, 4) + ":" + Decimal(ordinal);
    assert SyntheticDeviceId(vendor, device, ordinal) == "wddm" + ":" + rest;
    assert !HexDigit("wddm"[0]);
    ForeignPrefixRefused("wddm", rest);
  }

  // ---- synthetic ids tell adapters apart ----

  predicate Digits(s: string) {
    forall i :: 0 <= i < |s| ==> HexDigit(s[i])
  }

  predicate DecimalDigits(s: string) {
    forall i :: 0 <= i < |s| ==> '0' <= s[i] <= '9'
  }

  function Number(s: string): nat
    requires DecimalDigits(s)
  {
    if s == "" then 0 else 10 * Number(s[..|s| - 1]) + (s[|s| - 1] - '0') as nat
  }

  lemma {:induction false} DecimalReads(n: nat)
    ensures DecimalDigits(Decimal(n)) && Number(Decimal(n)) == n
  {
    var s := Decimal(n);
    if n >= 10 {
      DecimalReads(n / 10);
      assert s[..|s| - 1] == Decimal(n / 10);
    } else {
      assert s[..0] == "";
    }
  }

  lemma HexPrintReads(n: nat, width: nat)
    ensures Digits(HexPrint(n, width)) && Value(HexPrint(n, width)) == n && ':' !in HexPrint(n, width)
  {
    MinimalDigits(n);
    PadDigits(Minimal(n), width);
  }

  lemma SplitsAlike(a: string, x: string, b: string, y: string)
    requires ':' !in a && ':' !in b && a + ":" + x == b + ":" + y
    ensures a == b && x == y
  {
    hide SplitOnce;
    FirstSplit(a, ':', x);
    FirstSplit(b, ':', y);
  }

  // Two adapters share a synthetic id only if vendor, device and ordinal all agree.
  lemma SyntheticInjective(vendor: nat, device: nat, ordinal: nat, vendor': nat, device': nat, ordinal': nat)
    requires SyntheticDeviceId(vendor, device, ordinal) == SyntheticDeviceId(vendor', device', ordinal')
    ensures vendor == vendor' && device == device' && ordinal == ordinal'
  {
    hide HexPrint, Decimal, Number, Value, HexDigit, SyntheticDeviceId;
    var (v, d, o) := (HexPrint(vendor, 4), HexPrint(device, 4), Decimal(ordinal));
    var (v', d', o') := (HexPrint(vendor', 4), HexPrint(device', 4), Decimal(ordinal'));
    SyntheticParts(vendor, device, ordinal);
    SyntheticParts(vendor', device', ordinal');
    SplitsAlike(v, d + ":" + o, v', d' + ":" + o');
    SplitsAlike(d, o, d', o');
  }

  lemma SyntheticParts(vendor: nat, device: nat, ordinal: nat)
    ensures var (v, d, o) := (HexPrint(vendor, 4), HexPrint(device, 4), Decimal(ordinal));
      && |SyntheticDeviceId(vendor, device, ordinal)| >= 5
      && SyntheticDeviceId(vendor, device, ordinal)[5..] == v + ":" + (d + ":" + o)
      && ':' !in v && ':' !in d && Digits(v) && Digits(d) && Value(v) == vendor && Value(d) == device
      && DecimalDigits(o) && Number(o) == ordinal
  {
    HexPrintReads(vendor, 4);
    HexPrintReads(device, 4);
    DecimalReads(ordinal);
    hide HexPrint, Decimal, Number, Value;
    var (v, d, o) := (HexPrint(vendor, 4), HexPrint(device, 4), Decimal(ordinal));
    assert SyntheticDeviceId(vendor, device, ordinal) == "wddm:" + (v + ":" + (d + ":" + o));
  }
}
