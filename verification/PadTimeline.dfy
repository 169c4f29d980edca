/**
  Timed controller input: compiling a timeline to the text of a command file, and the reader that takes
  the sequence number from such a file only when everything in it is in order.
 */
module PadTimeline {
  import opened Options

  const ONE_HOUR := 3600000
  const MOST_EVENTS := 4096
  const LONGEST_HOLD := 5000
  const LONGEST_LINE := 127
  const READ_LIMIT := 129
  const MAX_SEQUENCE := 0xFFFF_FFFF_FFFF_FFFF
  const ALLOWED: bv32 := 0x70FFFE
  const KEYWORD := "APS5_PAD_TIMELINE"

  // ----- buttons

  function Button(name: string): Option<bv32> {
    match name
    case "l3" => Some(0x2)
    case "r3" => Some(0x4)
    case "options" => Some(0x8)
    case "up" => Some(0x10)
    case "right" => Some(0x20)
    case "down" => Some(0x40)
    case "left" => Some(0x80)
    case "l2" => Some(0x100)
    case "r2" => Some(0x200)
    case "l1" => Some(0x400)
    case "r1" => Some(0x800)
    case "triangle" => Some(0x1000)
    case "circle" => Some(0x2000)
    case "cross" => Some(0x4000)
    case "square" => Some(0x8000)
    case "touchpad" => Some(0x100000)
    case "touch-left" => Some(0x200000)
    case "touch-right" => Some(0x400000)
    case "release" => Some(0)
    case _ => None
  }

  predicate AllKnown(names: seq<string>) { forall i :: 0 <= i < |names| ==> Button(names[i]).Some? }

  function Mask(names: seq<string>): bv32
    requires AllKnown(names)
  {
    if names == [] then 0 else Both(Mask(names[..|names| - 1]), Button(names[|names| - 1]).value)
  }

  function Both(a: bv32, b: bv32): bv32 { a | b }

  predicate Clean(mask: bv32) { mask & !ALLOWED == 0 }

  lemma {:induction false} ButtonIsClean(name: string)
    requires Button(name).Some?
    ensures Clean(Button(name).value)
  {
  }

  lemma {:induction false} BothAreClean(a: bv32, b: bv32)
    requires Clean(a) && Clean(b)
    ensures Clean(Both(a, b))
  {
    assert (a | b) & !ALLOWED == (a & !ALLOWED) | (b & !ALLOWED);
  }

  lemma {:induction false} MaskIsClean(names: seq<string>)
    requires AllKnown(names)
    ensures Clean(Mask(names))
  {
    if names != [] {
      var init := names[..|names| - 1];
      MaskIsClean(init);
      ButtonIsClean(names[|names| - 1]);
      BothAreClean(Mask(init), Button(names[|names| - 1]).value);
    }
  }

  ghost predicate Meets(a: bv32, b: bv32) { a & b != 0 }

  /** One of the names is that of a button with one of the bits. */
  ghost predicate Pressed(names: seq<string>, bits: bv32) {
    exists i :: 0 <= i < |names| && Button(names[i]).Some? && Meets(Button(names[i]).value, bits)
  }

  lemma {:induction false} PressedNext(names: seq<string>, bits: bv32)
    requires names != [] && Button(names[|names| - 1]).Some?
    ensures Pressed(names, bits)
        <==> Pressed(names[..|names| - 1], bits) || Meets(Button(names[|names| - 1]).value, bits)
  {
    hide Button, Meets;
    var init := names[..|names| - 1];
    if Pressed(init, bits) {
      var i :| 0 <= i < |init| && Button(init[i]).Some? && Meets(Button(init[i]).value, bits);
      assert names[i] == init[i];
    }
    if Pressed(names, bits) {
      var i :| 0 <= i < |names| && Button(names[i]).Some? && Meets(Button(names[i]).value, bits);
      if i < |init| { assert init[i] == names[i]; }
    }
  }

  /** A bit of the mask is set exactly when a named button has it. */
  lemma {:induction false} MaskIs(names: seq<string>, bits: bv32)
    requires AllKnown(names)
    ensures Meets(Mask(names), bits) <==> Pressed(names, bits)
  {
    hide Button, Pressed, Meets, Both;
    if names == [] {
      NonePressed(bits);
    } else {
      MaskIs(names[..|names| - 1], bits);
      BothMeet(Mask(names[..|names| - 1]), Button(names[|names| - 1]).value, bits);
      PressedNext(names, bits);
    }
  }

  lemma {:induction false} NonePressed(bits: bv32)
    ensures !Pressed([], bits) && !Meets(Mask([]), bits)
  {
  }

  lemma {:induction false} BothMeet(a: bv32, b: bv32, bits: bv32)
    ensures Meets(Both(a, b), bits) <==> Meets(a, bits) || Meets(b, bits)
  {
    AndOverOr(a, b, bits);
    OrIsZero(a & bits, b & bits);
  }

  lemma {:induction false} AndOverOr(a: bv32, b: bv32, bits: bv32)
    ensures Both(a, b) & bits == (a & bits) | (b & bits)
  {
  }

  lemma {:induction false} OrIsZero(a: bv32, b: bv32)
    ensures a | b == 0 <==> a == 0 && b == 0
  {
  }

  /** The button that a bit stands for. */
  ghost function NameOf(bit: bv32): string {
    match bit
    case 0x2 => "l3"
    case 0x4 => "r3"
    case 0x8 => "options"
    case 0x10 => "up"
    case 0x20 => "right"
    case 0x40 => "down"
    case 0x80 => "left"
    case 0x100 => "l2"
    case 0x200 => "r2"
    case 0x400 => "l1"
    case 0x800 => "r1"
    case 0x1000 => "triangle"
    case 0x2000 => "circle"
    case 0x4000 => "cross"
    case 0x8000 => "square"
    case 0x100000 => "touchpad"
    case 0x200000 => "touch-left"
    case 0x400000 => "touch-right"
    case _ => "release"
  }

  ghost predicate OneBit(x: bv32) { x != 0 && x & (x - 1) == 0 }

  lemma {:induction false} ButtonIsOneBit(name: string)
    requires Button(name).Some?
    ensures name == NameOf(Button(name).value) && (name != "release" ==> OneBit(Button(name).value))
  {
  }

  lemma {:induction false} OneBitsApart(a: bv32, b: bv32)
    requires OneBit(a) && OneBit(b) && a != b
    ensures a & b == 0
  {
  }


  /** Two buttons share no bit. */
  lemma {:induction false} ButtonsApart(a: string, b: string)
    requires Button(a).Some? && Button(b).Some? && a != b
    ensures !Meets(Button(a).value, Button(b).value)
  {
    ButtonIsOneBit(a);
    ButtonIsOneBit(b);
    hide Button, NameOf, OneBit, Meets;
    if a == "release" || b == "release" {
      ReleaseIsEmpty();
      NothingMeets(Button(a).value, Button(b).value);
    } else {
      OneBitsApart(Button(a).value, Button(b).value);
    }
  }

  lemma {:induction false} ReleaseIsEmpty()
    ensures Button("release") == Some(0)
  {
  }

  lemma {:induction false} NothingMeets(a: bv32, b: bv32)
    requires a == 0 || b == 0
    ensures !Meets(a, b)
  {
  }

  lemma {:induction false} OneBitMeetsItself(a: bv32)
    requires OneBit(a)
    ensures Meets(a, a)
  {
  }

  /** Which buttons are named, apart from the empty one. */
  ghost predicate SameButtons(a: seq<string>, b: seq<string>) {
    forall name :: name != "release" ==> (name in a <==> name in b)
  }

  /** Names of different buttons give different masks. */
  lemma {:induction false} MaskTells(a: seq<string>, b: seq<string>)
    requires AllKnown(a) && AllKnown(b)
    ensures Mask(a) == Mask(b) ==> SameButtons(a, b)
  {
    hide Mask, Button;
    if Mask(a) == Mask(b) {
      forall name | name != "release" ensures name in a <==> name in b {
        MaskHas(a, name);
        MaskHas(b, name);
      }
    }
  }

  /** A named button is in the names exactly when its bit is in the mask. */
  lemma {:induction false} MaskHas(names: seq<string>, name: string)
    requires AllKnown(names) && name != "release"
    ensures Button(name).Some? ==> (name in names <==> Meets(Mask(names), Button(name).value))
    ensures Button(name).None? ==> name !in names
  {
    hide Mask, Button, Meets, OneBit;
    if Button(name).Some? {
      var bit := Button(name).value;
      MaskIs(names, bit);
      ButtonIsOneBit(name);
      OneBitMeetsItself(bit);
      forall i | 0 <= i < |names| && names[i] != name ensures !Meets(Button(names[i]).value, bit) {
        ButtonsApart(names[i], name);
      }
    }
  }

  // ----- decimal numbers

  function Digit(d: nat): char
    requires d < 10
  {
    "0123456789"[d]
  }

  function Decimal(n: nat): (r: string)
    ensures r != []
    ensures forall i :: 0 <= i < |r| ==> IsDigit(r[i])
  {
    (if n < 10 then "" else Decimal(n / 10)) + [Digit(n % 10)]
  }

  predicate IsDigit(c: char) { '0' <= c <= '9' }

  function DigitValue(c: char): nat
    requires IsDigit(c)
  {
    (c - '0') as nat
  }

  lemma {:induction false} DigitRoundTrip(d: nat)
    requires d < 10
    ensures IsDigit(Digit(d)) && DigitValue(Digit(d)) == d
  {
  }

  /** The number that decimal digits stand for. */
  ghost function Worth(s: string): int {
    if s == [] then 0 else 10 * Worth(s[..|s| - 1]) + (s[|s| - 1] as int - '0' as int)
  }

  /** Reads digits on to a value; the value and what follows the digits. */
  function Digits(s: string, value: nat): (nat, string)
  {
    if s == [] || !IsDigit(s[0]) then (value, s) else Digits(s[1..], value * 10 + DigitValue(s[0]))
  }

  lemma {:induction false} DecimalReads(n: nat, rest: string)
    ensures Digits(Decimal(n) + rest, 0) == Digits(rest, n)
  {
    var d := Digit(n % 10);
    DigitRoundTrip(n % 10);
    var tail := [d] + rest;
    assert tail[1..] == rest && tail[0] == d;
    if n < 10 {
      assert Decimal(n) + rest == tail;
    } else {
      DecimalReads(n / 10, tail);
      assert Decimal(n) + rest == Decimal(n / 10) + tail;
    }
  }

  function Pow10(k: nat): nat { if k == 0 then 1 else 10 * Pow10(k - 1) }

  lemma {:induction false} DecimalLength(n: nat, k: nat)
    requires k > 0 && n < Pow10(k)
    ensures |Decimal(n)| <= k
  {
    if n >= 10 { DecimalLength(n / 10, k - 1); }
  }

  // ----- reading

  predicate IsSpace(c: char) { c == ' ' || c == '\t' || c == '\n' || c == '\r' || c == '\U{000B}' || c == '\U{000C}' }

  function SkipSpace(s: string): string { if s != [] && IsSpace(s[0]) then SkipSpace(s[1..]) else s }

  /** A number, perhaps with a plus before it. */
  function Number(s: string): Option<(nat, string)> {
    var digits := if s != [] && s[0] == '+' then s[1..] else s;
    if digits == [] || !IsDigit(digits[0]) then None else Some(Digits(digits, 0))
  }

  /** What separates two numbers: space, or nothing before a plus. */
  function Gap(s: string): Option<string> {
    if s == [] then None else if IsSpace(s[0]) then Some(SkipSpace(s)) else if s[0] == '+' then Some(s) else None
  }

  /** Three numbers with space around them, and nothing else. */
  function Three(s: string): Option<(nat, nat, nat)> {
    match Number(SkipSpace(s))
    case None => None
    case Some((a, after)) =>
      match Gap(after)
      case None => None
      case Some(second) =>
        match Number(second)
        case None => None
        case Some((b, after2)) =>
          match Gap(after2)
          case None => None
          case Some(third) =>
            match Number(third)
            case None => None
            case Some((c, end)) => if SkipSpace(end) == [] then Some((a, b, c)) else None
  }

  function Header(s: string): Option<(nat, nat, nat)> {
    var t := SkipSpace(s);
    if |t| > |KEYWORD| && t[..|KEYWORD|] == KEYWORD && IsSpace(t[|KEYWORD|]) then Three(t[|KEYWORD|..]) else None
  }

  /** Up to the first of the characters, or all of it. */
  function Until(s: string, c: char): string { if s == [] || s[0] == c then [] else [s[0]] + Until(s[1..], c) }

  /** `readline` with a limit: the next line with its newline, but no more than so many characters. */
  function ReadLine(s: string, limit: nat): (r: (string, string))
    ensures r.0 + r.1 == s
  {
    if s == [] || limit == 0 then ([], s)
    else if s[0] == '\n' then ([s[0]], s[1..])
    else
      var (line, rest) := ReadLine(s[1..], limit - 1);
      assert s == [s[0]] + s[1..];
      ([s[0]] + line, rest)
  }

  function WithoutNewlines(s: string): string {
    if s != [] && s[|s| - 1] == '\n' then WithoutNewlines(s[..|s| - 1]) else s
  }

  predicate MaskAllowed(buttons: nat) { buttons <= 0xFFFF_FFFF && Clean(buttons as bv32) }

  /** One timed event, as the reader checks it. */
  predicate InOrder(start: nat, duration: nat, buttons: nat, previousEnd: nat) {
    MaskAllowed(buttons) && 1 <= duration <= LONGEST_HOLD && start >= previousEnd && start + duration <= ONE_HOUR
  }

  /** So many events from here on, and then nothing but space. */
  predicate EventsFollow(s: string, count: nat, previousEnd: nat)
    decreases count
  {
    if count == 0 then SkipSpace(s) == []
    else
      var (line, rest) := ReadLine(s, READ_LIMIT);
      && line != [] && |WithoutNewlines(line)| <= LONGEST_LINE
      && match Three(Until(line, '\0'))
         case None => false
         case Some((start, duration, buttons)) =>
           InOrder(start, duration, buttons, previousEnd) && EventsFollow(rest, count - 1, start + duration)
  }

  /** The sequence number of a command file, or 0 when anything is wrong with it. */
  function SequenceOf(text: string): nat {
    var (header, rest) := ReadLine(text, READ_LIMIT);
    if |WithoutNewlines(header)| > LONGEST_LINE then 0
    else
      match Header(Until(header, '\0'))
      case None => 0
      case Some((version, sequence, count)) =>
        if version != 1 || sequence < 1 || sequence > MAX_SEQUENCE || count < 1 || count > MOST_EVENTS then 0
        else if EventsFollow(rest, count, 0) then sequence else 0
  }

  /** One event of a command file. */
  lemma {:induction false} EventsFollowStep(s: string, count: nat, previousEnd: nat)
    ensures count == 0 ==> (EventsFollow(s, count, previousEnd) <==> SkipSpace(s) == [])
    ensures count > 0 ==>
              var (line, rest) := ReadLine(s, READ_LIMIT);
              if line == [] || |WithoutNewlines(line)| > LONGEST_LINE || Three(Until(line, '\0')).None?
              then !EventsFollow(s, count, previousEnd)
              else
                var (start, duration, buttons) := Three(Until(line, '\0')).value;
                EventsFollow(s, count, previousEnd)
                == (InOrder(start, duration, buttons, previousEnd) && EventsFollow(rest, count - 1, start + duration))
  {
  }

  /** The header of a command file. */
  lemma {:induction false} SequenceIs(text: string)
    ensures var (header, rest) := ReadLine(text, READ_LIMIT);
            if |WithoutNewlines(header)| > LONGEST_LINE || Header(Until(header, '\0')).None? then SequenceOf(text) == 0
            else
              var (version, sequence, count) := Header(Until(header, '\0')).value;
              SequenceOf(text)
              == if version != 1 || sequence < 1 || sequence > MAX_SEQUENCE || count < 1 || count > MOST_EVENTS then 0
                 else if EventsFollow(rest, count, 0) then sequence else 0
  {
  }

  // ----- what the reader accepts, said outright

  ghost predicate Blank(s: string) {
    forall i :: 0 <= i < |s| ==> s[i] in {' ', '\t', '\n', '\r', '\U{000B}', '\U{000C}'}
  }

  ghost function Unsigned(s: string): string { if s != [] && s[0] == '+' then s[1..] else s }

  /** Digits, perhaps with a plus before them, that stand for a number. */
  ghost predicate NumberText(s: string, n: int) {
    var digits := Unsigned(s);
    digits != [] && (forall i :: 0 <= i < |digits| ==> '0' <= digits[i] <= '9') && Worth(digits) == n
  }

  /** Blanks between two numbers; there may be none before a plus. */
  ghost predicate Between(gap: string, next: string) { Blank(gap) && (gap != [] || (next != [] && next[0] == '+')) }

  /** Three numbers with blanks around and between them. */
  ghost predicate SplitsAs(parts: seq<string>, a: int, b: int, c: int) {
    && |parts| == 7 && Blank(parts[0]) && NumberText(parts[1], a) && Between(parts[2], parts[3])
    && NumberText(parts[3], b) && Between(parts[4], parts[5]) && NumberText(parts[5], c) && Blank(parts[6])
  }

  ghost function Joined(parts: seq<string>): string { if parts == [] then "" else parts[0] + Joined(parts[1..]) }

  ghost predicate Numbers(s: string, a: int, b: int, c: int) {
    exists parts :: SplitsAs(parts, a, b, c) && s == Joined(parts)
  }

  /** What `readline` with its limit takes from the front of a text. */
  ghost predicate IsFirstLine(line: string, rest: string) {
    && |line| <= 129 && (forall i :: 0 <= i < |line| - 1 ==> line[i] != '\n')
    && (|line| == 129 || rest == [] || (line != [] && line[|line| - 1] == '\n'))
  }

  /** A line that is not too long, and what it says up to the first zero. */
  ghost predicate Says(line: string, said: string) {
    && (forall i :: 127 <= i < |line| ==> line[i] == '\n')
    && said <= line && '\0' !in said && (|said| == |line| || line[|said|] == '\0')
  }

  /** The next line of a text is that of an event in order. */
  ghost predicate EventNext(s: string, line: string, said: string, start: int, duration: int, buttons: nat,
                            previousEnd: int) {
    && line != [] && line <= s && IsFirstLine(line, s[|line|..]) && Says(line, said)
    && Numbers(said, start, duration, buttons)
    && buttons < 0x1_0000_0000 && (buttons as bv32) & !0x70FFFE == 0
    && 1 <= duration <= 5000 && previousEnd <= start && start + duration <= 3_600_000
  }

  /** So many lines of events in order, each after the one before, and then nothing but blanks. */
  ghost predicate EventsAre(s: string, count: nat, previousEnd: int)
    decreases count
  {
    if count == 0 then Blank(s)
    else
      exists line, said, start, duration, buttons :: EventNext(s, line, said, start, duration, buttons, previousEnd)
          && EventsAre(s[|line|..], count - 1, start + duration)
  }

  /** A header: the keyword between blanks, and three numbers. */
  ghost predicate HeaderAs(said: string, before: string, numbers: string, version: int, sequence: int, count: int) {
    && said == before + "APS5_PAD_TIMELINE" + numbers && Blank(before)
    && numbers != [] && Blank(numbers[..1]) && Numbers(numbers, version, sequence, count)
  }

  /** A file that gives a sequence number. */
  ghost predicate Gives(text: string, sequence: int) {
    exists line, said, before, numbers, count: nat ::
      && line <= text && IsFirstLine(line, text[|line|..]) && Says(line, said)
      && HeaderAs(said, before, numbers, 1, sequence, count)
      && 1 <= sequence <= 0xFFFF_FFFF_FFFF_FFFF && 1 <= count <= 4096
      && EventsAre(text[|line|..], count, 0)
  }

  // ----- the reader does so

  lemma {:induction false} BlankNext(s: string)
    requires s != []
    ensures Blank(s) <==> IsSpace(s[0]) && Blank(s[1..])
  {
    if IsSpace(s[0]) && Blank(s[1..]) {
      forall i | 0 <= i < |s| ensures IsSpace(s[i]) {
        if i > 0 { assert s[i] == s[1..][i - 1]; }
      }
    }
  }

  /** What is skipped is blank, and what is left does not begin with a blank. */
  lemma {:induction false} SkipIs(s: string) returns (blank: string)
    ensures s == blank + SkipSpace(s) && Blank(blank)
    ensures SkipSpace(s) == [] || !IsSpace(SkipSpace(s)[0])
    ensures s != [] && IsSpace(s[0]) ==> blank != []
  {
    blank := [];
    if s != [] && IsSpace(s[0]) {
      var more := SkipIs(s[1..]);
      blank := [s[0]] + more;
      assert blank[1..] == more;
      BlankNext(blank);
    }
  }

  lemma {:induction false} SkipsBlank(blank: string, rest: string)
    requires Blank(blank) && (rest == [] || !IsSpace(rest[0]))
    ensures SkipSpace(blank + rest) == rest
  {
    var s := blank + rest;
    if blank == [] {
      assert s == rest;
    } else {
      BlankNext(blank);
      assert s[0] == blank[0] && s[1..] == blank[1..] + rest;
      SkipsBlank(blank[1..], rest);
    }
  }

  ghost predicate AllDigits(s: string) { forall i :: 0 <= i < |s| ==> IsDigit(s[i]) }

  lemma {:induction false} WorthNext(p: string, d: char)
    ensures Worth(p + [d]) == 10 * Worth(p) + (d as int - '0' as int)
  {
    assert (p + [d])[..|p|] == p;
  }

  lemma {:induction false} WorthIsNat(s: string)
    requires AllDigits(s)
    ensures Worth(s) >= 0
  {
    if s != [] { WorthIsNat(s[..|s| - 1]); }
  }

  lemma {:induction false} DigitsNext(s: string, value: nat)
    ensures s != [] && IsDigit(s[0]) ==> Digits(s, value) == Digits(s[1..], value * 10 + DigitValue(s[0]))
    ensures s == [] || !IsDigit(s[0]) ==> Digits(s, value) == (value, s)
  {
  }

  /** Reading digits on to the number of those before gives the number of all. */
  lemma {:induction false} DigitsRead(p: string, x: string, rest: string)
    requires AllDigits(p) && AllDigits(x) && (rest == [] || !IsDigit(rest[0]))
    ensures Worth(p) >= 0 && Worth(p + x) >= 0 && Digits(x + rest, Worth(p)) == (Worth(p + x), rest)
    decreases |x|
  {
    hide Digits, Worth;
    WorthIsNat(p);
    var s := x + rest;
    DigitsNext(s, Worth(p));
    if x == [] {
      assert p + x == p && s == rest;
    } else {
      assert s[0] == x[0] && s[1..] == x[1..] + rest;
      WorthNext(p, x[0]);
      DigitsRead(p + [x[0]], x[1..], rest);
      assert p + [x[0]] + x[1..] == p + x;
    }
  }

  /** The digits at the front of a text, and what follows them. */
  lemma {:induction false} LeadingDigits(s: string) returns (x: string, rest: string)
    ensures s == x + rest && AllDigits(x) && (rest == [] || !IsDigit(rest[0]))
    ensures s != [] && IsDigit(s[0]) ==> x != []
  {
    if s == [] || !IsDigit(s[0]) {
      x, rest := [], s;
    } else {
      x, rest := LeadingDigits(s[1..]);
      x := [s[0]] + x;
    }
  }

  lemma {:induction false} UnsignedFront(x: string, rest: string)
    requires x != []
    ensures Unsigned(x + rest) == Unsigned(x) + rest && x + rest != []
  {
    assert (x + rest)[0] == x[0] && (x + rest)[1..] == x[1..] + rest;
  }

  lemma {:induction false} NumberIsRead(x: string, n: int, rest: string)
    requires NumberText(x, n) && (rest == [] || !IsDigit(rest[0]))
    ensures n >= 0 && Number(x + rest) == Some((n, rest))
  {
    hide Digits;
    var digits := Unsigned(x);
    UnsignedFront(x, rest);
    DigitsRead("", digits, rest);
    assert "" + digits == digits && (digits + rest)[0] == digits[0];
  }

  lemma {:induction false} NumberSplits(s: string) returns (x: string, n: int, rest: string)
    requires Number(s).Some?
    ensures NumberText(x, n) && s == x + rest && (rest == [] || !IsDigit(rest[0]))
    ensures Number(s) == Some((n, rest)) && x != [] && !IsSpace(x[0])
  {
    hide Digits;
    x, rest := LeadingDigits(Unsigned(s));
    n := Worth(x);
    var digits := x;
    if s[0] == '+' { x := "+" + digits; }
    assert s == x + rest && x[0] == s[0];
    assert Unsigned(x) == digits;
    NumberIsRead(x, n, rest);
  }

  lemma {:induction false} GapIsRead(gap: string, next: string, rest: string)
    requires Between(gap, next) && next != [] && !IsSpace(next[0])
    ensures Gap(gap + (next + rest)) == Some(next + rest)
  {
    var s := gap + (next + rest);
    assert (next + rest)[0] == next[0];
    if gap == [] {
      assert s == next + rest;
    } else {
      assert s[0] == gap[0];
      SkipsBlank(gap, next + rest);
    }
  }

  lemma {:induction false} GapSplits(s: string) returns (gap: string)
    requires Gap(s).Some?
    ensures s == gap + Gap(s).value && Between(gap, Gap(s).value)
  {
    gap := SkipIs(s);
    if !IsSpace(s[0]) { gap := []; }
  }

  /** What comes after a number in a split does not begin with a digit. */
  lemma {:induction false} NoDigitNext(gap: string, next: string, rest: string)
    requires Between(gap, next)
    ensures gap + (next + rest) != [] && !IsDigit((gap + (next + rest))[0])
  {
    var s := gap + (next + rest);
    if gap == [] { assert s == next + rest && s[0] == next[0]; } else { assert s[0] == gap[0] && IsSpace(gap[0]); }
  }

  lemma {:induction false} NumberStarts(s: string, n: int)
    requires NumberText(s, n)
    ensures s != [] && !IsSpace(s[0])
  {
  }

  lemma {:induction false} JoinedSeven(p: seq<string>)
    requires |p| == 7
    ensures Joined(p) == p[0] + (p[1] + (p[2] + (p[3] + (p[4] + (p[5] + p[6])))))
  {
    assert p[1..][1..] == p[2..] && p[2..][1..] == p[3..] && p[3..][1..] == p[4..];
    assert p[4..][1..] == p[5..] && p[5..][1..] == p[6..] && p[6..][1..] == [];
    assert Joined(p[6..]) == p[6] + "" == p[6];
    assert Joined(p[5..]) == p[5] + p[6];
    assert Joined(p[4..]) == p[4] + (p[5] + p[6]);
    assert Joined(p[3..]) == p[3] + (p[4] + (p[5] + p[6]));
    assert Joined(p[2..]) == p[2] + (p[3] + (p[4] + (p[5] + p[6])));
  }

  /** Three numbers that a text splits into are what is read of it. */
  lemma {:induction false} SplitIsRead(parts: seq<string>, a: int, b: int, c: int)
    requires SplitsAs(parts, a, b, c)
    ensures a >= 0 && b >= 0 && c >= 0 && Three(Joined(parts)) == Some((a, b, c))
  {
    hide NumberText, Between, Number, Gap, Blank, IsSpace, IsDigit, Joined;
    JoinedSeven(parts);
    var fifth := parts[5] + parts[6];
    var third := parts[3] + (parts[4] + fifth);
    var first := parts[1] + (parts[2] + third);
    NumberStarts(parts[1], a);
    NumberStarts(parts[3], b);
    NumberStarts(parts[5], c);
    assert first[0] == parts[1][0];
    SkipsBlank(parts[0], first);
    NoDigitNext(parts[2], parts[3], parts[4] + fifth);
    NumberIsRead(parts[1], a, parts[2] + third);
    GapIsRead(parts[2], parts[3], parts[4] + fifth);
    NoDigitNext(parts[4], parts[5], parts[6]);
    NumberIsRead(parts[3], b, parts[4] + fifth);
    GapIsRead(parts[4], parts[5], parts[6]);
    BlankNoDigit(parts[6]);
    NumberIsRead(parts[5], c, parts[6]);
    BlankIsSkipped(parts[6]);
  }

  lemma {:induction false} BlankNoDigit(s: string)
    requires Blank(s)
    ensures s == [] || !IsDigit(s[0])
  {
  }

  lemma {:induction false} BlankIsSkipped(s: string)
    ensures Blank(s) <==> SkipSpace(s) == []
  {
    if Blank(s) {
      SkipsBlank(s, []);
      assert s + [] == s;
    } else {
      var blank := SkipIs(s);
      assert blank + [] == blank;
    }
  }

  /** What is read of a text as three numbers is what it splits into. */
  lemma {:induction false} ReadSplits(s: string)
    requires Three(s).Some?
    ensures var (a, b, c) := Three(s).value; Numbers(s, a, b, c)
  {
    hide NumberText, Between, Number, Gap, Blank, IsSpace, IsDigit, Joined, SkipSpace;
    var p0 := SkipIs(s);
    var p1, a, rest1 := NumberSplits(SkipSpace(s));
    var p2 := GapSplits(rest1);
    var p3, b, rest2 := NumberSplits(Gap(rest1).value);
    var p4 := GapSplits(rest2);
    var p5, c, p6 := NumberSplits(Gap(rest2).value);
    BlankIsSkipped(p6);
    var parts := [p0, p1, p2, p3, p4, p5, p6];
    BetweenFront(p2, p3, rest2);
    BetweenFront(p4, p5, p6);
    JoinedSeven(parts);
    assert SplitsAs(parts, a, b, c) && s == Joined(parts);
  }

  lemma {:induction false} BetweenFront(gap: string, next: string, rest: string)
    requires Between(gap, next + rest) && next != []
    ensures Between(gap, next)
  {
    assert (next + rest)[0] == next[0];
  }

  /** The reader takes three numbers from exactly the texts that split into them. */
  lemma {:induction false} ThreeIs(s: string, a: int, b: int, c: int)
    ensures Numbers(s, a, b, c) <==> a >= 0 && b >= 0 && c >= 0 && Three(s) == Some((a, b, c))
  {
    hide SplitsAs, Joined, Three;
    if Numbers(s, a, b, c) {
      var parts :| SplitsAs(parts, a, b, c) && s == Joined(parts);
      SplitIsRead(parts, a, b, c);
    }
    if Three(s).Some? { ReadSplits(s); }
  }

  /** What is read as a line is what the limit and the first newline leave. */
  lemma {:induction false} ReadLineIs(s: string, limit: nat)
    ensures var (line, rest) := ReadLine(s, limit);
            && |line| <= limit && (forall i :: 0 <= i < |line| - 1 ==> line[i] != '\n')
            && (|line| == limit || rest == [] || (line != [] && line[|line| - 1] == '\n'))
  {
    if s != [] && limit > 0 && s[0] != '\n' { ReadLineIs(s[1..], limit - 1); }
  }

  lemma {:induction false} OneFirstLine(line: string, rest: string, limit: nat)
    requires |line| <= limit && forall i :: 0 <= i < |line| - 1 ==> line[i] != '\n'
    requires |line| == limit || rest == [] || (line != [] && line[|line| - 1] == '\n')
    ensures ReadLine(line + rest, limit) == (line, rest)
  {
    var s := line + rest;
    if line == [] {
      assert s == rest;
    } else {
      assert s[0] == line[0] && s[1..] == line[1..] + rest && line == [line[0]] + line[1..];
      if |line| == 1 { assert s[1..] == rest; }
      if |line| > 1 || line[0] != '\n' { OneFirstLine(line[1..], rest, limit - 1); }
    }
  }

  lemma {:induction false} FirstLineIs(s: string, line: string)
    ensures line <= s && IsFirstLine(line, s[|line|..]) <==> ReadLine(s, READ_LIMIT).0 == line
    ensures var (l, rest) := ReadLine(s, READ_LIMIT); l <= s && rest == s[|l|..]
  {
    ReadLineIs(s, READ_LIMIT);
    var (l, rest) := ReadLine(s, READ_LIMIT);
    assert s[..|l|] == l && s[|l|..] == rest;
    assert IsFirstLine(l, rest);
    if line <= s && IsFirstLine(line, s[|line|..]) {
      OneFirstLine(line, s[|line|..], READ_LIMIT);
      assert line + s[|line|..] == s;
    }
  }

  lemma {:induction false} WithoutNewlinesIs(line: string, k: nat)
    ensures |WithoutNewlines(line)| <= k <==> forall i :: k <= i < |line| ==> line[i] == '\n'
  {
    if line != [] && line[|line| - 1] == '\n' {
      var init := line[..|line| - 1];
      assert forall i :: 0 <= i < |init| ==> line[i] == init[i];
      WithoutNewlinesIs(init, k);
    }
  }

  lemma {:induction false} UntilIs(s: string, c: char)
    ensures var u := Until(s, c); u <= s && c !in u && (|u| == |s| || s[|u|] == c)
  {
    if s != [] && s[0] != c { UntilIs(s[1..], c); }
  }

  lemma {:induction false} OneUntil(s: string, u: string, c: char)
    requires u <= s && c !in u && (|u| == |s| || s[|u|] == c)
    ensures Until(s, c) == u
  {
    if u != [] {
      assert s[0] == u[0] && s[1..][..|u| - 1] == u[1..];
      OneUntil(s[1..], u[1..], c);
    }
  }

  lemma {:induction false} SaysIs(line: string, said: string)
    ensures Says(line, said) <==> |WithoutNewlines(line)| <= LONGEST_LINE && said == Until(line, '\0')
  {
    WithoutNewlinesIs(line, LONGEST_LINE);
    UntilIs(line, '\0');
    if Says(line, said) { OneUntil(line, said, '\0'); }
  }

  /** The events of a text are read exactly when it has them. */
  lemma {:induction false} EventsAreFollowed(s: string, count: nat, previousEnd: nat)
    ensures EventsAre(s, count, previousEnd) <==> EventsFollow(s, count, previousEnd)
    decreases count
  {
    hide EventsFollow, ReadLine, Three, Until, WithoutNewlines, InOrder, SkipSpace, Says, Numbers, IsFirstLine, Blank;
    EventsFollowStep(s, count, previousEnd);
    BlankIsSkipped(s);
    if count > 0 {
      if EventsAre(s, count, previousEnd) {
        var line, said, start, duration, buttons :| EventNext(s, line, said, start, duration, buttons, previousEnd)
            && EventsAre(s[|line|..], count - 1, start + duration);
        EventNextIs(s, line, said, start, duration, buttons, previousEnd);
        EventsAreFollowed(s[|line|..], count - 1, start + duration);
      }
      if EventsFollow(s, count, previousEnd) {
        var (line, rest) := ReadLine(s, READ_LIMIT);
        var said := Until(line, '\0');
        var (start, duration, buttons) := Three(said).value;
        EventNextIs(s, line, said, start, duration, buttons, previousEnd);
        EventsAreFollowed(rest, count - 1, start + duration);
      }
    }
  }

  lemma {:induction false} EventNextIs(s: string, line: string, said: string, start: int, duration: int, buttons: nat,
                                       previousEnd: nat)
    ensures EventNext(s, line, said, start, duration, buttons, previousEnd)
            <==> && ReadLine(s, READ_LIMIT).0 == line && line != [] && |WithoutNewlines(line)| <= LONGEST_LINE
                 && said == Until(line, '\0') && start >= 0 && duration >= 0
                 && Three(said) == Some((start, duration, buttons)) && InOrder(start, duration, buttons, previousEnd)
    ensures ReadLine(s, READ_LIMIT).0 <= s && ReadLine(s, READ_LIMIT).1 == s[|ReadLine(s, READ_LIMIT).0|..]
  {
    hide ReadLine, Three, Until, WithoutNewlines, Numbers, Says, IsFirstLine;
    FirstLineIs(s, line);
    SaysIs(line, said);
    ThreeIs(said, start, duration, buttons);
    AllowedIs(buttons);
  }

  lemma {:induction false} AllowedIs(buttons: nat)
    ensures MaskAllowed(buttons) <==> buttons < 0x1_0000_0000 && (buttons as bv32) & !0x70FFFE == 0
  {
  }

  /** The numbers of a header are read exactly when the header has them. */
  lemma {:induction false} HeaderIs(said: string, version: int, sequence: int, count: int)
    ensures (exists before, numbers :: HeaderAs(said, before, numbers, version, sequence, count))
        <==> version >= 0 && sequence >= 0 && count >= 0 && Header(said) == Some((version, sequence, count))
  {
    hide Three, Numbers, SkipSpace;
    if before, numbers :| HeaderAs(said, before, numbers, version, sequence, count) {
      var t := KEYWORD + numbers;
      assert t[0] == 'A' && said == before + t;
      SkipsBlank(before, t);
      assert t[..|KEYWORD|] == KEYWORD && t[|KEYWORD|..] == numbers;
      assert numbers[..1][0] == numbers[0] == t[|KEYWORD|];
      ThreeIs(numbers, version, sequence, count);
    }
    if version >= 0 && sequence >= 0 && count >= 0 && Header(said) == Some((version, sequence, count)) {
      var before := SkipIs(said);
      var t := SkipSpace(said);
      var numbers := t[|KEYWORD|..];
      assert said == before + KEYWORD + numbers;
      ThreeIs(numbers, version, sequence, count);
      assert numbers[0] == t[|KEYWORD|];
      assert HeaderAs(said, before, numbers, version, sequence, count);
    }
  }

  /** The reader gives a number other than 0 exactly for the files that give it. */
  lemma {:induction false} SequenceGives(text: string, sequence: int)
    ensures Gives(text, sequence) <==> sequence > 0 && SequenceOf(text) == sequence
  {
    hide SequenceOf, EventsFollow, EventsAre, ReadLine, Until, WithoutNewlines, Header, Says, IsFirstLine, HeaderAs;
    SequenceIs(text);
    var (header, rest) := ReadLine(text, READ_LIMIT);
    FirstLineIs(text, header);
    if Gives(text, sequence) {
      var line, said, before, numbers, count: nat :|
        && line <= text && IsFirstLine(line, text[|line|..]) && Says(line, said)
        && HeaderAs(said, before, numbers, 1, sequence, count)
        && 1 <= sequence <= 0xFFFF_FFFF_FFFF_FFFF && 1 <= count <= 4096
        && EventsAre(text[|line|..], count, 0);
      FirstLineIs(text, line);
      SaysIs(line, said);
      HeaderIs(said, 1, sequence, count);
      EventsAreFollowed(rest, count, 0);
    }
    if sequence > 0 && SequenceOf(text) == sequence {
      var said := Until(header, '\0');
      var count := Header(said).value.2;
      SaysIs(header, said);
      HeaderIs(said, 1, sequence, count);
      EventsAreFollowed(rest, count, 0);
      var before, numbers :| HeaderAs(said, before, numbers, 1, sequence, count);
      assert header <= text && IsFirstLine(header, text[|header|..]) && Says(header, said);
    }
  }

  lemma {:induction false} SequenceIsGiven(text: string)
    ensures SequenceOf(text) > 0 ==> Gives(text, SequenceOf(text))
    ensures SequenceOf(text) == 0 ==> forall n :: !Gives(text, n)
  {
    hide Gives, SequenceOf;
    forall n ensures Gives(text, n) <==> n > 0 && SequenceOf(text) == n { SequenceGives(text, n); }
  }

  /** Reads the file line by line; the result is 0 when it gives no sequence number. */
  method TimelineSequence(text: string) returns (r: nat)
    ensures r > 0 ==> Gives(text, r)
    ensures r == 0 ==> forall n :: !Gives(text, n)
    ensures r == SequenceOf(text)
  {
    hide Gives, SequenceOf, EventsFollow, ReadLine, Three, Until, WithoutNewlines, InOrder, Header, SkipSpace;
    SequenceIsGiven(text);
    SequenceIs(text);
    var (header, command) := ReadLine(text, READ_LIMIT);
    if |WithoutNewlines(header)| > LONGEST_LINE {
      return 0;
    }
    var fields := Header(Until(header, '\0'));
    if fields.None? {
      return 0;
    }
    var (version, sequence, count) := fields.value;
    if version != 1 || sequence < 1 || sequence > MAX_SEQUENCE || count < 1 || count > MOST_EVENTS {
      return 0;
    }
    var previousEnd: nat := 0;
    ghost var first := command;
    for n := 0 to count
      invariant EventsFollow(first, count, 0) == EventsFollow(command, count - n, previousEnd)
    {
      EventsFollowStep(command, count - n, previousEnd);
      var (line, rest) := ReadLine(command, READ_LIMIT);
      command := rest;
      if line == [] || |WithoutNewlines(line)| > LONGEST_LINE {
        return 0;
      }
      var row := Three(Until(line, '\0'));
      if row.None? {
        return 0;
      }
      var (start, duration, buttons) := row.value;
      if !InOrder(start, duration, buttons, previousEnd) {
        return 0;
      }
      previousEnd := start + duration;
    }
    EventsFollowStep(command, 0, previousEnd);
    r := if SkipSpace(command) == [] then sequence else 0;
  }

  // ----- writing

  /** A timed event of a row. */
  datatype Row = Row(start: nat, duration: nat, buttons: nat)

  function RowText(r: Row): string { Decimal(r.start) + " " + Decimal(r.duration) + " " + Decimal(r.buttons) }

  function HeaderText(sequence: nat, count: nat): string { KEYWORD + " 1 " + Decimal(sequence) + " " + Decimal(count) }

  function RowLines(rows: seq<Row>): string { if rows == [] then "" else RowText(rows[0]) + "\n" + RowLines(rows[1..]) }

  function FileText(sequence: nat, rows: seq<Row>): string { HeaderText(sequence, |rows|) + "\n" + RowLines(rows) }

  /** Rows that follow one another, each in order. */
  ghost predicate Timed(rows: seq<Row>, previousEnd: nat) {
    rows == []
    || (InOrder(rows[0].start, rows[0].duration, rows[0].buttons, previousEnd)
        && Timed(rows[1..], rows[0].start + rows[0].duration))
  }

  // ----- what is written is read back

  lemma {:induction false} NumberReads(n: nat, rest: string)
    requires rest == [] || !IsDigit(rest[0])
    ensures Number(Decimal(n) + rest) == Some((n, rest))
  {
    DecimalReads(n, rest);
    assert (Decimal(n) + rest)[0] == Decimal(n)[0];
  }

  lemma {:induction false} GapReads(n: nat, rest: string)
    ensures Gap(" " + (Decimal(n) + rest)) == Some(Decimal(n) + rest)
  {
    var s := Decimal(n) + rest;
    assert s[0] == Decimal(n)[0];
    assert (" " + s)[1..] == s;
    assert SkipSpace(s) == s;
  }

  lemma {:induction false} ThreeReads(a: nat, b: nat, c: nat)
    ensures Three(Decimal(a) + (" " + (Decimal(b) + (" " + (Decimal(c) + "\n"))))) == Some((a, b, c))
  {
    var third := Decimal(c) + "\n";
    var second := Decimal(b) + (" " + third);
    var first := Decimal(a) + (" " + second);
    assert first[0] == Decimal(a)[0];
    assert SkipSpace(first) == first;
    NumberReads(a, " " + second);
    GapReads(b, " " + third);
    NumberReads(b, " " + third);
    GapReads(c, "\n");
    NumberReads(c, "\n");
    assert "\n"[1..] == [];
    assert SkipSpace("\n") == SkipSpace([]) == [];
  }

  predicate Plain(s: string) { forall i :: 0 <= i < |s| ==> s[i] != '\n' && s[i] != '\0' }

  lemma {:induction false} ReadsWholeLine(line: string, rest: string, limit: nat)
    requires Plain(line) && |line| < limit
    ensures ReadLine(line + "\n" + rest, limit) == (line + "\n", rest)
  {
    var s := line + "\n" + rest;
    if line == [] {
      assert s[0] == '\n' && s[1..] == rest;
    } else {
      assert s[0] == line[0] && s[1..] == line[1..] + "\n" + rest;
      ReadsWholeLine(line[1..], rest, limit - 1);
      assert [line[0]] + (line[1..] + "\n") == line + "\n";
    }
  }

  lemma {:induction false} UntilAll(s: string)
    requires forall i :: 0 <= i < |s| ==> s[i] != '\0'
    ensures Until(s, '\0') == s
  {
    if s != [] { UntilAll(s[1..]); }
  }

  lemma {:induction false} LineIsRead(line: string, rest: string)
    requires Plain(line) && |line| <= LONGEST_LINE
    ensures var (l, r) := ReadLine(line + "\n" + rest, READ_LIMIT);
            l == line + "\n" && r == rest && |WithoutNewlines(l)| <= LONGEST_LINE && Until(l, '\0') == l
  {
    ReadsWholeLine(line, rest, READ_LIMIT);
    var l := line + "\n";
    assert l[..|l| - 1] == line;
    WithoutPlain(line);
    UntilAll(l);
  }

  lemma {:induction false} WithoutPlain(line: string)
    requires Plain(line)
    ensures WithoutNewlines(line) == line
  {
  }

  lemma {:induction false} DecimalPlain(n: nat)
    ensures Plain(Decimal(n))
  {
  }

  lemma {:induction false} Sizes()
    ensures Pow10(4) == 10_000 && Pow10(7) == 10_000_000 && Pow10(10) == 10_000_000_000
        && Pow10(20) == 100_000_000_000_000_000_000
  {
    assert Pow10(2) == 100 && Pow10(4) == 10_000 && Pow10(6) == 1_000_000 && Pow10(8) == 100_000_000;
    assert Pow10(10) == 10_000_000_000 && Pow10(12) == 1_000_000_000_000 && Pow10(14) == 100_000_000_000_000;
    assert Pow10(16) == 10_000_000_000_000_000 && Pow10(18) == 1_000_000_000_000_000_000;
  }

  lemma {:induction false} RowFits(r: Row, previousEnd: nat)
    requires InOrder(r.start, r.duration, r.buttons, previousEnd)
    ensures Plain(RowText(r)) && |RowText(r)| <= LONGEST_LINE
  {
    Sizes();
    DecimalLength(r.start, 7);
    DecimalLength(r.duration, 4);
    DecimalLength(r.buttons, 10);
    DecimalPlain(r.start);
    DecimalPlain(r.duration);
    DecimalPlain(r.buttons);
  }

  lemma {:induction false} RowReads(r: Row)
    ensures Three(RowText(r) + "\n") == Some((r.start, r.duration, r.buttons))
  {
    hide Three, Decimal;
    ThreeReads(r.start, r.duration, r.buttons);
    RowRegrouped(Decimal(r.start), Decimal(r.duration), Decimal(r.buttons));
  }

  lemma {:induction false} RowRegrouped(a: string, b: string, c: string)
    ensures a + " " + b + " " + c + "\n" == a + (" " + (b + (" " + (c + "\n"))))
  {
    assert a + " " + b == a + (" " + b);
  }

  lemma {:induction false} RowsAreRead(rows: seq<Row>, previousEnd: nat)
    requires Timed(rows, previousEnd)
    ensures EventsFollow(RowLines(rows), |rows|, previousEnd)
  {
    if rows != [] {
      var r := rows[0];
      RowFits(r, previousEnd);
      LineIsRead(RowText(r), RowLines(rows[1..]));
      RowReads(r);
      RowsAreRead(rows[1..], r.start + r.duration);
      hide ReadLine, Three, RowText, Until, WithoutNewlines, InOrder, Plain;
    }
  }

  lemma {:induction false} HeaderReads(sequence: nat, count: nat)
    ensures Header(HeaderText(sequence, count) + "\n") == Some((1, sequence, count))
  {
    var rest := Decimal(1) + (" " + (Decimal(sequence) + (" " + (Decimal(count) + "\n"))));
    assert Decimal(1) == "1" && rest[0] == '1';
    ThreeReads(1, sequence, count);
    HeaderRegrouped(KEYWORD, Decimal(sequence), Decimal(count));
    KeywordReads(rest);
  }

  lemma {:induction false} HeaderRegrouped(keyword: string, sequence: string, count: string)
    ensures keyword + " 1 " + sequence + " " + count + "\n" == keyword + (" "
        + ("1" + (" " + (sequence + (" " + (count + "\n"))))))
  {
    var tail := sequence + (" " + (count + "\n"));
    assert " 1 " + tail == " " + ("1" + (" " + tail));
    assert keyword + " 1 " + sequence + " " + count + "\n" == keyword + (" 1 " + tail);
  }

  lemma {:induction false} KeywordReads(rest: string)
    requires rest != [] && !IsSpace(rest[0])
    ensures Header(KEYWORD + (" " + rest)) == Three(rest)
  {
    var s := KEYWORD + (" " + rest);
    assert s[0] == 'A' && SkipSpace(s) == s;
    assert s[..|KEYWORD|] == KEYWORD && s[|KEYWORD|..] == " " + rest;
    assert (" " + rest)[1..] == rest && SkipSpace(rest) == rest;
    assert SkipSpace(" " + rest) == SkipSpace(rest);
    hide Number, Gap;
  }

  lemma {:induction false} HeaderFits(sequence: nat, count: nat)
    requires sequence <= MAX_SEQUENCE && count <= MOST_EVENTS
    ensures Plain(HeaderText(sequence, count)) && |HeaderText(sequence, count)| <= LONGEST_LINE
  {
    Sizes();
    DecimalLength(sequence, 20);
    DecimalLength(count, 4);
    DecimalPlain(sequence);
    DecimalPlain(count);
  }

  /** A file of timed rows gives its sequence number back. */
  lemma {:induction false} FileReadsBack(sequence: nat, rows: seq<Row>)
    requires 1 <= sequence <= MAX_SEQUENCE && 1 <= |rows| <= MOST_EVENTS && Timed(rows, 0)
    ensures SequenceOf(FileText(sequence, rows)) == sequence
  {
    HeaderFits(sequence, |rows|);
    LineIsRead(HeaderText(sequence, |rows|), RowLines(rows));
    HeaderReads(sequence, |rows|);
    RowsAreRead(rows, 0);
  }

  // ----- compiling a timeline

  /** An event of a timeline document. */
  datatype Event = Event(at: int, hold: int, buttons: seq<string>)

  datatype Fault =
    | BadVersion | BadSequence | BadRepeat | BadGap | BadCount
    | BadTime(event: nat) | BadHold(event: nat) | Overlaps(event: nat)
    | UnknownButton(event: nat) | DuplicateButton(event: nat) | ReleaseCombined(event: nat) | TooLong

  datatype Compiled = Text(text: string) | Refused(fault: Fault)

  predicate NoDuplicates(names: seq<string>) { forall i, j :: 0 <= i < j < |names| ==> names[i] != names[j] }

  /** The first thing wrong with an event. */
  function EventFault(e: Event, index: nat, previousEnd: int): Option<Fault> {
    if e.at < 0 || e.at > ONE_HOUR then Some(BadTime(index))
    else if e.hold < 1 || e.hold > LONGEST_HOLD then Some(BadHold(index))
    else if e.at < previousEnd || e.at + e.hold > ONE_HOUR then Some(Overlaps(index))
    else if !AllKnown(e.buttons) then Some(UnknownButton(index))
    else if !NoDuplicates(e.buttons) then Some(DuplicateButton(index))
    else if "release" in e.buttons && |e.buttons| != 1 then Some(ReleaseCombined(index))
    else None
  }

  function EventRow(e: Event): Row
    requires e.at >= 0 && e.hold >= 0 && AllKnown(e.buttons)
  {
    Row(e.at, e.hold, Mask(e.buttons) as nat)
  }

  function EndOf(rows: seq<Row>): nat { if rows == [] then 0 else rows[|rows| - 1].start + rows[|rows| - 1].duration }

  function Shifted(rows: seq<Row>, shift: nat): (r: seq<Row>)
    ensures |r| == |rows| && forall i :: 0 <= i < |r| ==> r[i] == rows[i].(start := rows[i].start + shift)
  {
    seq(|rows|, i requires 0 <= i < |rows| => rows[i].(start := rows[i].start + shift))
  }

  function Repeated(rows: seq<Row>, period: nat, n: nat): seq<Row> {
    if n == 0 then [] else Repeated(rows, period, n - 1) + Shifted(rows, (n - 1) * period)
  }

  // ----- repetitions stay in order

  lemma {:induction false} TimedConcat(a: seq<Row>, b: seq<Row>, previousEnd: nat)
    requires Timed(a, previousEnd) && Timed(b, if a == [] then previousEnd else EndOf(a))
    ensures Timed(a + b, previousEnd)
  {
    hide InOrder;
    if a == [] {
      assert a + b == b;
    } else {
      assert (a + b)[1..] == a[1..] + b && (a + b)[0] == a[0];
      TimedConcat(a[1..], b, a[0].start + a[0].duration);
    }
  }

  lemma {:induction false} TimedEarlier(rows: seq<Row>, previousEnd: nat, earlier: nat)
    requires Timed(rows, previousEnd) && earlier <= previousEnd
    ensures Timed(rows, earlier)
  {
  }

  lemma {:induction false} TimedEnds(rows: seq<Row>, previousEnd: nat)
    requires Timed(rows, previousEnd) && rows != []
    ensures previousEnd < EndOf(rows) <= ONE_HOUR
    ensures forall i :: 0 <= i < |rows| ==> rows[i].start + rows[i].duration <= EndOf(rows)
  {
    if |rows| > 1 { TimedEnds(rows[1..], rows[0].start + rows[0].duration); }
  }

  lemma {:induction false} TimedShifted(rows: seq<Row>, previousEnd: nat, shift: nat)
    requires Timed(rows, previousEnd) && (rows != [] ==> EndOf(rows) + shift <= ONE_HOUR)
    ensures Timed(Shifted(rows, shift), previousEnd + shift)
  {
    if rows != [] {
      TimedEnds(rows, previousEnd);
      assert Shifted(rows, shift)[1..] == Shifted(rows[1..], shift);
      TimedShifted(rows[1..], rows[0].start + rows[0].duration, shift);
    }
  }

  lemma {:induction false} RepeatedIsTimed(rows: seq<Row>, period: nat, n: nat)
    requires Timed(rows, 0) && rows != [] && period >= EndOf(rows)
    requires n > 0 ==> (n - 1) * period + EndOf(rows) <= ONE_HOUR
    ensures Timed(Repeated(rows, period, n), 0) && |Repeated(rows, period, n)| == n * |rows|
    ensures n > 0 ==> EndOf(Repeated(rows, period, n)) == (n - 1) * period + EndOf(rows)
  {
    if n > 0 {
      var shift := (n - 1) * period;
      if n > 1 {
        assert shift == (n - 2) * period + period;
        RepeatedIsTimed(rows, period, n - 1);
      }
      var before, last := Repeated(rows, period, n - 1), Shifted(rows, shift);
      TimedShifted(rows, 0, shift);
      TimedEarlier(last, shift, if before == [] then 0 else EndOf(before));
      TimedConcat(before, last, 0);
      assert n * |rows| == (n - 1) * |rows| + |rows|;
    }
  }

  // ----- the compiler

  /** Where the events before one end. */
  ghost function EndBefore(source: seq<Event>, i: nat): int
    requires i <= |source|
  {
    if i == 0 then 0 else source[i - 1].at + source[i - 1].hold
  }

  ghost predicate RightAt(source: seq<Event>, i: nat)
    requires i < |source|
  {
    EndBefore(source, i) >= 0 && EventFault(source[i], i, EndBefore(source, i)).None?
  }

  ghost predicate AllRight(source: seq<Event>, n: nat)
    requires n <= |source|
  {
    forall i :: 0 <= i < n ==> RightAt(source, i)
  }

  /** The rows of the first n events. */
  ghost function RowsTo(source: seq<Event>, n: nat): (r: seq<Row>)
    requires n <= |source| && AllRight(source, n)
    ensures |r| == n
  {
    if n == 0 then []
    else
      assert RightAt(source, n - 1);
      RowsTo(source, n - 1) + [EventRow(source[n - 1])]
  }

  predicate FitsHour(end: int, repeat: int, gap: int) { (repeat - 1) * (end + gap) + end <= ONE_HOUR }

  /** Checks the events in order. */
  method CheckEvents(source: seq<Event>) returns (fault: Option<Fault>, events: seq<Row>)
    ensures fault.None? <==> AllRight(source, |source|)
    ensures fault.Some? ==>
        exists i :: 0 <= i < |source| && AllRight(source, i) && fault == EventFault(source[i], i, EndBefore(source, i))
    ensures fault.None? ==>
        events == RowsTo(source, |source|) && Timed(events, 0) && EndOf(events) == EndBefore(source, |source|)
  {
    events := [];
    var previousEnd: nat := 0;
    for index := 0 to |source|
      invariant AllRight(source, index) && events == RowsTo(source, index) && Timed(events, 0)
      invariant previousEnd == EndOf(events) == EndBefore(source, index)
    {
      var e := source[index];
      fault := EventFault(e, index, previousEnd);
      if fault.Some? {
        assert !RightAt(source, index);
        return;
      }
      assert RightAt(source, index);
      NextRow(e, previousEnd, events);
      events := events + [EventRow(e)];
      previousEnd := e.at + e.hold;
    }
    fault := None;
  }

  lemma {:induction false} NextRow(e: Event, previousEnd: nat, events: seq<Row>)
    requires e.at >= 0 && e.hold >= 0 && AllKnown(e.buttons) && 1 <= e.hold <= LONGEST_HOLD
    requires e.at >= previousEnd && e.at + e.hold <= ONE_HOUR && Timed(events, 0) && previousEnd == EndOf(events)
    ensures Timed(events + [EventRow(e)], 0)
  {
    var row := EventRow(e);
    MaskIsClean(e.buttons);
    RowIsInOrder(row, Mask(e.buttons), previousEnd);
    TimedConcat(events, [row], 0);
  }

  lemma {:induction false} RowIsInOrder(row: Row, mask: bv32, previousEnd: nat)
    requires row.buttons == mask as nat && Clean(mask) && 1 <= row.duration <= LONGEST_HOLD
    requires row.start >= previousEnd && row.start + row.duration <= ONE_HOUR
    ensures InOrder(row.start, row.duration, row.buttons, previousEnd) && Timed([row], previousEnd)
  {
    assert (mask as nat) as bv32 == mask;
    assert [row][1..] == [];
  }

  // ----- what the compiler refuses and writes, said outright

  /** The numbers that come with a document are in range. */
  ghost predicate InRange(version: int, count: nat, sequence: int, repeat: int, gap: int) {
    && 1 <= sequence <= 0xFFFF_FFFF_FFFF_FFFF && 1 <= repeat <= 4096 && 0 <= gap <= 3_600_000 && version == 1
    && 1 <= count * repeat <= 4096
  }

  /** What is wrong with an event that comes after one that ends at previousEnd. */
  ghost predicate WrongWith(e: Event, index: nat, previousEnd: int, fault: Fault) {
    var timed := 0 <= e.at <= 3_600_000;
    var held := 1 <= e.hold <= 5000;
    var apart := previousEnd <= e.at && e.at + e.hold <= 3_600_000;
    var known := forall i :: 0 <= i < |e.buttons| ==> Button(e.buttons[i]).Some?;
    var once := forall i, j :: 0 <= i < j < |e.buttons| ==> e.buttons[i] != e.buttons[j];
    match fault
    case BadTime(k) => k == index && !timed
    case BadHold(k) => k == index && timed && !held
    case Overlaps(k) => k == index && timed && held && !apart
    case UnknownButton(k) => k == index && timed && held && apart && !known
    case DuplicateButton(k) => k == index && timed && held && apart && known && !once
    case ReleaseCombined(k) =>
      k == index && timed && held && apart && known && once && "release" in e.buttons && |e.buttons| != 1
    case _ => false
  }

  /** The events before one are all in order. */
  ghost predicate FineBefore(source: seq<Event>, n: nat) {
    n <= |source| && forall i, f :: 0 <= i < n ==> !WrongWith(source[i], i, EndBefore(source, i), f)
  }

  /** A document is refused for this reason, the first there is. */
  ghost predicate RefusedFor(version: int, source: seq<Event>, sequence: int, repeat: int, gap: int, fault: Fault) {
    match fault
    case BadSequence => !(1 <= sequence <= 0xFFFF_FFFF_FFFF_FFFF)
    case BadRepeat => 1 <= sequence <= 0xFFFF_FFFF_FFFF_FFFF && !(1 <= repeat <= 4096)
    case BadGap => 1 <= sequence <= 0xFFFF_FFFF_FFFF_FFFF && 1 <= repeat <= 4096 && !(0 <= gap <= 3_600_000)
    case BadVersion =>
      && 1 <= sequence <= 0xFFFF_FFFF_FFFF_FFFF && 1 <= repeat <= 4096 && 0 <= gap <= 3_600_000 && version != 1
    case BadCount =>
      && 1 <= sequence <= 0xFFFF_FFFF_FFFF_FFFF && 1 <= repeat <= 4096 && 0 <= gap <= 3_600_000 && version == 1
      && !(1 <= |source| * repeat <= 4096)
    case TooLong =>
      && InRange(version, |source|, sequence, repeat, gap) && FineBefore(source, |source|)
      && (repeat - 1) * (EndBefore(source, |source|) + gap) + EndBefore(source, |source|) > 3_600_000
    case _ =>
      && InRange(version, |source|, sequence, repeat, gap)
      && exists i :: 0 <= i < |source| && FineBefore(source, i)
           && WrongWith(source[i], i, EndBefore(source, i), fault)
  }

  /** Decimal digits without zeros in front. */
  ghost predicate Spells(s: string, n: int) {
    && s != [] && (forall i :: 0 <= i < |s| ==> '0' <= s[i] <= '9') && (|s| > 1 ==> s[0] != '0')
    && Worth(s) == n
  }

  /** Lines, each ended. */
  ghost function Ended(lines: seq<string>): string {
    if lines == [] then "" else Ended(lines[..|lines| - 1]) + lines[|lines| - 1] + "\n"
  }

  ghost predicate HeaderSays(line: string, x: string, y: string, sequence: int, count: int) {
    line == "APS5_PAD_TIMELINE 1 " + x + " " + y && Spells(x, sequence) && Spells(y, count)
  }

  ghost predicate RowSays(line: string, x: string, y: string, z: string, start: int, duration: int, mask: bv32) {
    line == x + " " + y + " " + z && Spells(x, start) && Spells(y, duration) && Spells(z, mask as nat)
  }

  /** A bit is set in a mask exactly when a named button has it. */
  ghost predicate MaskOf(mask: bv32, names: seq<string>) {
    forall bits: bv32 :: Meets(mask, bits) <==> Pressed(names, bits)
  }

  /** A line gives a start, the duration of an event and the mask of its buttons. */
  ghost predicate EventLine(line: string, e: Event, start: int) {
    exists x, y, z, mask :: RowSays(line, x, y, z, start, e.hold, mask) && MaskOf(mask, e.buttons)
  }

  /** A line for the header, then all events once for each repetition, each later by the period. */
  ghost predicate Prints(lines: seq<string>, source: seq<Event>, sequence: int, repeat: int, gap: int) {
    && source != [] && lines != [] && |lines| == 1 + repeat * |source|
    && (exists x, y :: HeaderSays(lines[0], x, y, sequence, repeat * |source|))
    && forall i :: 1 <= i < |lines| ==>
         var e := source[(i - 1) % |source|];
         EventLine(lines[i], e, e.at + (i - 1) / |source| * (EndBefore(source, |source|) + gap))
  }

  // ----- the compiler does so

  lemma {:induction false} DecimalStarts(n: nat)
    requires n > 0
    ensures Decimal(n)[0] != '0'
  {
    if n >= 10 { DecimalStarts(n / 10); }
  }

  lemma {:induction false} DecimalWorth(n: nat)
    ensures Worth(Decimal(n)) == n
  {
    hide Digit;
    DigitRoundTrip(n % 10);
    var before := if n < 10 then "" else Decimal(n / 10);
    WorthNext(before, Digit(n % 10));
    if n >= 10 { DecimalWorth(n / 10); }
  }

  lemma {:induction false} DecimalSpells(n: nat)
    ensures Spells(Decimal(n), n)
  {
    hide Worth, Digit;
    DecimalWorth(n);
    if n >= 10 { DecimalStarts(n); }
  }

  lemma {:induction false} EventFaultIs(e: Event, index: nat, previousEnd: int, f: Fault)
    ensures EventFault(e, index, previousEnd) == Some(f) <==> WrongWith(e, index, previousEnd, f)
  {
    hide Button;
  }

  lemma {:induction false} RightAtIs(source: seq<Event>, i: nat)
    requires i < |source|
    ensures EventFault(source[i], i, EndBefore(source, i)).None?
            <==> forall f :: !WrongWith(source[i], i, EndBefore(source, i), f)
  {
    hide EventFault, WrongWith;
    var e, end := source[i], EndBefore(source, i);
    forall f ensures EventFault(e, i, end) == Some(f) <==> WrongWith(e, i, end, f) { EventFaultIs(e, i, end, f); }
    if EventFault(e, i, end).Some? { assert WrongWith(e, i, end, EventFault(e, i, end).value); }
  }

  /** The events before one are right exactly when nothing is wrong with any. */
  lemma {:induction false} RightIsFine(source: seq<Event>, n: nat)
    requires n <= |source|
    ensures AllRight(source, n) <==> FineBefore(source, n)
    ensures AllRight(source, n) ==> EndBefore(source, n) >= 0
  {
    hide EventFault, WrongWith;
    if AllRight(source, n) {
      forall i, f | 0 <= i < n ensures !WrongWith(source[i], i, EndBefore(source, i), f) {
        assert RightAt(source, i);
        EventFaultIs(source[i], i, EndBefore(source, i), f);
      }
      if n > 0 {
        assert RightAt(source, n - 1);
        FineEnds(source[n - 1], n - 1, EndBefore(source, n - 1));
      }
    }
    if FineBefore(source, n) {
      forall i: nat | i < n ensures RightAt(source, i) {
        RightAtIs(source, i);
        if i > 0 {
          RightAtIs(source, i - 1);
          FineEnds(source[i - 1], i - 1, EndBefore(source, i - 1));
        }
      }
    }
  }

  lemma {:induction false} FineEnds(e: Event, index: nat, previousEnd: int)
    requires EventFault(e, index, previousEnd).None?
    ensures e.at + e.hold >= 0
  {
    hide AllKnown, NoDuplicates;
  }

  lemma {:induction false} RepeatedAt(rows: seq<Row>, period: nat, n: nat, i: nat)
    requires i < n * |rows|
    ensures |Repeated(rows, period, n)| == n * |rows|
    ensures Repeated(rows, period, n)[i]
            == rows[i % |rows|].(start := rows[i % |rows|].start + i / |rows| * period)
  {
    RepeatedLength(rows, period, n - 1);
    assert n * |rows| == (n - 1) * |rows| + |rows|;
    if i < (n - 1) * |rows| {
      RepeatedAt(rows, period, n - 1, i);
    } else {
      DivMod(i, n - 1, |rows|);
    }
  }

  lemma {:induction false} DivMod(i: nat, k: nat, m: nat)
    requires k * m <= i < k * m + m
    ensures i / m == k && i % m == i - k * m
  {
    OneQuotient(k, i - k * m, i / m, i % m, m);
  }

  lemma {:induction false} OneQuotient(k: int, r: int, q: int, t: int, m: int)
    requires k * m + r == q * m + t && 0 <= r < m && 0 <= t < m
    ensures k == q && r == t
  {
    assert (k - q) * m == t - r;
    AtLeast(k - q, m);
    AtLeast(q - k, m);
  }

  lemma {:induction false} AtLeast(x: int, m: int)
    requires m > 0
    ensures x >= 1 ==> x * m >= m
  {
  }

  lemma {:induction false} RepeatedLength(rows: seq<Row>, period: nat, n: nat)
    ensures |Repeated(rows, period, n)| == n * |rows|
  {
    if n > 0 {
      RepeatedLength(rows, period, n - 1);
      assert n * |rows| == (n - 1) * |rows| + |rows|;
    }
  }

  lemma {:induction false} RowsToAt(source: seq<Event>, n: nat, j: nat)
    requires j < n <= |source| && AllRight(source, n)
    ensures RightAt(source, j) && RowsTo(source, n)[j] == EventRow(source[j])
  {
    hide EventRow;
    if j < n - 1 { RowsToAt(source, n - 1, j); }
  }

  ghost function RowTexts(rows: seq<Row>): (r: seq<string>)
    ensures |r| == |rows| && forall i :: 0 <= i < |r| ==> r[i] == RowText(rows[i])
  {
    seq(|rows|, i requires 0 <= i < |rows| => RowText(rows[i]))
  }

  lemma {:induction false} EndedFront(first: string, lines: seq<string>)
    ensures Ended([first] + lines) == first + "\n" + Ended(lines)
  {
    var all := [first] + lines;
    if lines == [] {
      assert all[..|all| - 1] == [];
    } else {
      var init := lines[..|lines| - 1];
      assert all[..|all| - 1] == [first] + init;
      EndedFront(first, init);
      Regrouped(first + "\n", Ended(init), lines[|lines| - 1] + "\n");
      Regrouped(first + "\n" + Ended(init), lines[|lines| - 1], "\n");
      Regrouped(Ended(init), lines[|lines| - 1], "\n");
    }
  }

  lemma {:induction false} Regrouped(a: string, b: string, c: string)
    ensures a + b + c == a + (b + c)
  {
  }

  lemma {:induction false} RowsAreEnded(rows: seq<Row>)
    ensures RowLines(rows) == Ended(RowTexts(rows))
  {
    hide RowText;
    if rows != [] {
      RowsAreEnded(rows[1..]);
      EndedFront(RowText(rows[0]), RowTexts(rows[1..]));
      assert RowTexts(rows) == [RowText(rows[0])] + RowTexts(rows[1..]);
    }
  }

  lemma {:induction false} FileIsEnded(sequence: nat, rows: seq<Row>)
    ensures FileText(sequence, rows) == Ended([HeaderText(sequence, |rows|)] + RowTexts(rows))
  {
    RowsAreEnded(rows);
    EndedFront(HeaderText(sequence, |rows|), RowTexts(rows));
  }

  /** The mask of an event's row has the bits of the named buttons. */
  lemma {:induction false} RowIsEventLine(e: Event, row: Row)
    requires e.at >= 0 && e.hold >= 0 && AllKnown(e.buttons)
    requires row.duration == e.hold && row.buttons == Mask(e.buttons) as nat
    ensures EventLine(RowText(row), e, row.start)
  {
    hide Decimal, Spells, Meets, Pressed, Mask, Button;
    var mask := Mask(e.buttons);
    forall bits: bv32 ensures Meets(mask, bits) <==> Pressed(e.buttons, bits) { MaskIs(e.buttons, bits); }
    assert MaskOf(mask, e.buttons);
    RowIsSaid(row, mask);
  }

  lemma {:induction false} RowIsSaid(row: Row, mask: bv32)
    requires row.buttons == mask as nat
    ensures RowSays(RowText(row), Decimal(row.start), Decimal(row.duration), Decimal(row.buttons),
                    row.start, row.duration, mask)
  {
    hide Decimal, Spells;
    DecimalSpells(row.start);
    DecimalSpells(row.duration);
    DecimalSpells(row.buttons);
  }

  lemma {:induction false} HeaderIsSaid(sequence: nat, count: nat)
    ensures exists x, y :: HeaderSays(HeaderText(sequence, count), x, y, sequence, count)
  {
    hide Decimal, Spells;
    DecimalSpells(sequence);
    DecimalSpells(count);
    assert HeaderSays(HeaderText(sequence, count), Decimal(sequence), Decimal(count), sequence, count);
  }

  lemma {:induction false} CompiledPrints(source: seq<Event>, sequence: nat, repeat: nat, gap: nat)
    requires AllRight(source, |source|) && EndBefore(source, |source|) >= 0 && source != []
    ensures var rows := Repeated(RowsTo(source, |source|), EndBefore(source, |source|) + gap, repeat);
            Prints([HeaderText(sequence, |rows|)] + RowTexts(rows), source, sequence, repeat, gap)
  {
    hide *;
    var period := EndBefore(source, |source|) + gap;
    var rows := Repeated(RowsTo(source, |source|), period, repeat);
    RepeatedLength(RowsTo(source, |source|), period, repeat);
    HeaderIsSaid(sequence, |rows|);
    forall i: nat | i < |rows|
      ensures var e := source[i % |source|]; EventLine(RowTexts(rows)[i], e, e.at + i / |source| * period)
    {
      EventPrints(source, period, repeat, i);
    }
    PrintsIf(HeaderText(sequence, |rows|), RowTexts(rows), source, sequence, repeat, gap);
  }

  lemma {:induction false} PrintsIf(header: string, rows: seq<string>, source: seq<Event>, sequence: nat,
                                    repeat: nat, gap: int)
    requires source != [] && |rows| == repeat * |source|
    requires exists x, y :: HeaderSays(header, x, y, sequence, repeat * |source|)
    requires forall i: nat :: i < |rows| ==>
               var e := source[i % |source|];
               EventLine(rows[i], e, e.at + i / |source| * (EndBefore(source, |source|) + gap))
    ensures Prints([header] + rows, source, sequence, repeat, gap)
  {
    hide HeaderSays, EventLine, EndBefore;
    var lines := [header] + rows;
    assert lines[0] == header;
    forall i | 1 <= i < |lines|
      ensures var e := source[(i - 1) % |source|];
              EventLine(lines[i], e, e.at + (i - 1) / |source| * (EndBefore(source, |source|) + gap))
    {
      assert lines[i] == rows[i - 1];
    }
  }

  lemma {:induction false} EventPrints(source: seq<Event>, period: nat, repeat: nat, i: nat)
    requires AllRight(source, |source|) && source != [] && i < repeat * |source|
    ensures var rows := Repeated(RowsTo(source, |source|), period, repeat);
            var e := source[i % |source|];
            i < |rows| && EventLine(RowTexts(rows)[i], e, e.at + i / |source| * period)
  {
    hide *;
    var events := RowsTo(source, |source|);
    var rows := Repeated(events, period, repeat);
    var j := i % |source|;
    RepeatedAt(events, period, repeat, i);
    RowsToAt(source, |source|, j);
    RightIsKnown(source, j);
    RowOfEvent(source[j]);
    RowIsEventLine(source[j], rows[i]);
  }

  lemma {:induction false} RowOfEvent(e: Event)
    requires e.at >= 0 && e.hold >= 0 && AllKnown(e.buttons)
    ensures EventRow(e) == Row(e.at, e.hold, Mask(e.buttons) as nat)
  {
  }

  lemma {:induction false} RightIsKnown(source: seq<Event>, j: nat)
    requires j < |source| && RightAt(source, j)
    ensures source[j].at >= 0 && source[j].hold >= 0 && AllKnown(source[j].buttons)
  {
  }

  /** An event that the check of events stops at is the first that something is wrong with. */
  lemma {:induction false} EventRefused(version: int, source: seq<Event>, sequence: int, repeat: int, gap: int, i: nat,
                                        fault: Fault)
    requires InRange(version, |source|, sequence, repeat, gap) && i < |source| && AllRight(source, i)
    requires EventFault(source[i], i, EndBefore(source, i)) == Some(fault)
    ensures RefusedFor(version, source, sequence, repeat, gap, fault)
  {
    hide InRange, EventFault, EndBefore, FineBefore, AllRight;
    RightIsFine(source, i);
    EventFaultIs(source[i], i, EndBefore(source, i), fault);
  }

  /** The repetitions of events that nothing is wrong with end too late, or nothing is wrong with the document. */
  lemma {:induction false} HourDecides(version: int, source: seq<Event>, sequence: int, repeat: int, gap: int)
    requires InRange(version, |source|, sequence, repeat, gap) && AllRight(source, |source|)
    ensures FitsHour(EndBefore(source, |source|), repeat, gap)
            ==> forall f :: !RefusedFor(version, source, sequence, repeat, gap, f)
    ensures !FitsHour(EndBefore(source, |source|), repeat, gap)
            ==> RefusedFor(version, source, sequence, repeat, gap, TooLong)
  {
    hide EndBefore, AllRight, WrongWith;
    RightIsFine(source, |source|);
  }

  /**
    Compiles exactly the documents in order, and otherwise gives the first thing wrong. The text is a line for the
    header and one for each event of each repetition; the reader accepts it and gives back its sequence number.
   */
  method Compile(version: int, source: seq<Event>, sequence: int, repeat: int, gap: int)
    returns (r: Compiled, ghost lines: seq<string>)
    ensures r.Text? ==> forall f :: !RefusedFor(version, source, sequence, repeat, gap, f)
    ensures r.Refused? ==> RefusedFor(version, source, sequence, repeat, gap, r.fault)
    ensures r.Text? ==> r.text == Ended(lines) && Prints(lines, source, sequence, repeat, gap)
    ensures r.Text? ==> SequenceOf(r.text) == sequence
  {
    hide SequenceOf, FileText, Repeated, Timed, AllRight, RowsTo, EndOf, EndBefore, FitsHour, WrongWith, Prints,
      FineBefore, EventFault, HeaderText, RowTexts, Ended;
    lines := [];
    if sequence < 1 || sequence > MAX_SEQUENCE {
      return Refused(BadSequence), lines;
    }
    if repeat < 1 || repeat > MOST_EVENTS {
      return Refused(BadRepeat), lines;
    }
    if gap < 0 || gap > ONE_HOUR {
      return Refused(BadGap), lines;
    }
    if version != 1 {
      return Refused(BadVersion), lines;
    }
    if |source| * repeat < 1 || |source| * repeat > MOST_EVENTS {
      return Refused(BadCount), lines;
    }
    var fault, events := CheckEvents(source);
    if fault.Some? {
      ghost var i: nat :| i < |source| && AllRight(source, i)
          && fault == EventFault(source[i], i, EndBefore(source, i));
      EventRefused(version, source, sequence, repeat, gap, i, fault.value);
      return Refused(fault.value), lines;
    }
    HourDecides(version, source, sequence, repeat, gap);
    if !FitsHour(EndOf(events), repeat, gap) {
      return Refused(TooLong), lines;
    }
    RepeatedReadsBack(sequence, events, repeat, gap);
    CompiledPrints(source, sequence, repeat, gap);
    var rows := Repeated(events, EndOf(events) + gap, repeat);
    FileIsEnded(sequence, rows);
    lines := [HeaderText(sequence, |rows|)] + RowTexts(rows);
    r := Text(FileText(sequence, rows));
  }

  lemma {:induction false} RepeatedReadsBack(sequence: nat, events: seq<Row>, repeat: nat, gap: nat)
    requires 1 <= sequence <= MAX_SEQUENCE && repeat >= 1 && 1 <= |events| * repeat <= MOST_EVENTS
    requires Timed(events, 0) && FitsHour(EndOf(events), repeat, gap)
    ensures SequenceOf(FileText(sequence, Repeated(events, EndOf(events) + gap, repeat))) == sequence
  {
    assert events != [];
    RepeatedIsTimed(events, EndOf(events) + gap, repeat);
    FileReadsBack(sequence, Repeated(events, EndOf(events) + gap, repeat));
  }
}
