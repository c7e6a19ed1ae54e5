/** Free-text phone numbers read as wa.me numbers, or not read at all. */
module WhatsAppPhone {
  import opened Clock

  const NATIONAL := 10
  const NATIONAL_WITH_15 := 12

  predicate StartsWith(s: string, prefix: string) {
    |prefix| <= |s| && s[..|prefix|] == prefix
  }

  /** The text without the prefix, when it has it. */
  function Drop(s: string, prefix: string): string {
    if StartsWith(s, prefix) then s[|prefix|..] else s
  }

  lemma DropsPrefix(prefix: string, rest: string)
    ensures StartsWith(prefix + rest, prefix) && Drop(prefix + rest, prefix) == rest
  {
  }

  function Mark(marked: bool, mark: string, s: string): string {
    if marked then mark + s else s
  }

  lemma DropUndone(s: string, prefix: string)
    ensures s == Mark(StartsWith(s, prefix), prefix, Drop(s, prefix))
  {
  }

  // ---------------------------------------------------------------- reading the digits

  /** Amba is 11, the only area code of two digits; all others start with 2 or 3. */
  predicate AreaStart(national: string) {
    StartsWith(national, "11") || StartsWith(national, "2") || StartsWith(national, "3")
  }

  function Without15(national: string, area: nat): Option<string>
    requires area + 2 <= |national|
  {
    if national[area..area + 2] == "15" then Some(national[..area] + national[area + 2..]) else None
  }

  function ToTenDigits(national: string): Option<string> {
    if !AreaStart(national) then None
    else if |national| == NATIONAL then Some(national)
    else if |national| != NATIONAL_WITH_15 then None
    else if StartsWith(national, "11") then Without15(national, 2)
    else if Without15(national, 3).Some? then Without15(national, 3)
    else Without15(national, 4)
  }

  function FromArgentineInternational(afterCountry: string): Option<string> {
    var isMobile := StartsWith(afterCountry, "9");
    var rest := Drop(Drop(afterCountry, "9"), "0");
    match ToTenDigits(rest)
    case None => None
    case Some(national) =>
      Some((if isMobile || |rest| == NATIONAL_WITH_15 then "549" else "54") + national)
  }

  function FromInternational(digits: string): Option<string> {
    if StartsWith(digits, "54") then FromArgentineInternational(Drop(digits, "54"))
    else if !StartsWith(digits, "0") && 8 <= |digits| <= 15 then Some(digits)
    else None
  }

  function FromDigits(plus: bool, digits: string): Option<string> {
    if plus then FromInternational(digits)
    else if StartsWith(digits, "00") then FromInternational(Drop(digits, "00"))
    else if StartsWith(digits, "54") && |digits| >= NATIONAL_WITH_15 then FromArgentineInternational(Drop(digits, "54"))
    else
      match ToTenDigits(Drop(digits, "0"))
      case None => None
      case Some(ten) => Some("549" + ten)
  }

  // ---------------------------------------------------------------- reading the text

  predicate IsDigit(c: char) {
    '0' <= c <= '9'
  }

  predicate IsSpace(c: char) {
    c == ' ' || '\t' <= c <= '\r' || c == '\U{00A0}' || c == '\U{1680}' || '\U{2000}' <= c <= '\U{200A}'
    || c == '\U{2028}' || c == '\U{2029}' || c == '\U{202F}' || c == '\U{205F}' || c == '\U{3000}' || c == '\U{FEFF}'
  }

  predicate IsPunctuation(c: char) {
    c == '-' || c == '(' || c == ')' || c == '.'
  }

  function PlainSpaces(s: string): string {
    seq(|s|, i requires 0 <= i < |s| => if IsSpace(s[i]) then ' ' else s[i])
  }

  function StripLeft(s: string): string {
    if s != "" && s[0] == ' ' then StripLeft(s[1..]) else s
  }

  function StripRight(s: string): string {
    if s != "" && s[|s| - 1] == ' ' then StripRight(s[..|s| - 1]) else s
  }

  predicate PlainText(s: string) {
    forall c | c in s :: IsDigit(c) || c == ' ' || IsPunctuation(c)
  }

  predicate AllowedShape(s: string) {
    Drop(s, "+") != "" && PlainText(Drop(s, "+"))
  }

  function DigitsOf(s: string): string {
    if s == "" then ""
    else if IsDigit(s[0]) then [s[0]] + DigitsOf(s[1..])
    else DigitsOf(s[1..])
  }

  function NormalizePhoneForWhatsApp(raw: Option<string>): Option<string> {
    ReadTrimmed(StripRight(StripLeft(PlainSpaces(raw.GetOr("")))))
  }

  function ReadTrimmed(trimmed: string): Option<string> {
    if trimmed == "" || !AllowedShape(trimmed) then None
    else FromDigits(StartsWith(trimmed, "+"), DigitsOf(trimmed))
  }

  // ---------------------------------------------------------------- what a text says

  function AfterSpaces(raw: string): string {
    if raw != "" && IsSpace(raw[0]) then AfterSpaces(raw[1..]) else raw
  }

  /** Read past the spaces in front: is there a "+", and what follows it. */
  predicate Plus(raw: string) {
    StartsWith(AfterSpaces(raw), "+")
  }

  function Body(raw: string): string {
    Drop(AfterSpaces(raw), "+")
  }

  predicate Legible(s: string) {
    forall c | c in s :: IsDigit(c) || IsSpace(c) || IsPunctuation(c)
  }

  lemma PlainTextIsLegible(s: string)
    ensures PlainText(PlainSpaces(s)) <==> Legible(s)
  {
    var p := PlainSpaces(s);
    if PlainText(p) {
      forall c | c in s
        ensures IsDigit(c) || IsSpace(c) || IsPunctuation(c)
      {
        var i :| 0 <= i < |s| && s[i] == c;
        assert p[i] in p;
      }
    }
    if Legible(s) {
      forall c | c in p
        ensures IsDigit(c) || c == ' ' || IsPunctuation(c)
      {
        var i :| 0 <= i < |p| && p[i] == c;
        assert s[i] in s;
      }
    }
  }

  lemma {:induction false} StripLeftOfPlainSpaces(s: string)
    ensures StripLeft(PlainSpaces(s)) == PlainSpaces(AfterSpaces(s))
  {
    if s != "" && IsSpace(s[0]) {
      assert PlainSpaces(s)[1..] == PlainSpaces(s[1..]);
      StripLeftOfPlainSpaces(s[1..]);
    }
  }

  /** Spaces at the end are neither digits nor anything illegible. */
  lemma {:induction false} StripRightKeeps(s: string)
    ensures PlainText(StripRight(s)) <==> PlainText(s)
    ensures DigitsOf(StripRight(s)) == DigitsOf(s)
    ensures s != "" && s[0] != ' ' ==> StripRight(s) != "" && StripRight(s)[0] == s[0]
  {
    if s != "" && s[|s| - 1] == ' ' {
      var front := s[..|s| - 1];
      StripRightKeeps(front);
      assert s == front + " ";
      DigitsOfConcat(front, " ");
    }
  }

  lemma {:induction false} StripRightAfterPlus(s: string)
    ensures StripRight("+" + s) == "+" + StripRight(s)
  {
    if s != "" && s[|s| - 1] == ' ' {
      assert ("+" + s)[..|s|] == "+" + s[..|s| - 1];
      StripRightAfterPlus(s[..|s| - 1]);
    } else {
      assert ("+" + s)[|s|] == if s == "" then '+' else s[|s| - 1];
    }
  }

  lemma {:induction false} DigitsOfConcat(a: string, b: string)
    ensures DigitsOf(a + b) == DigitsOf(a) + DigitsOf(b)
  {
    if a == "" {
      assert a + b == b;
    } else {
      assert (a + b)[1..] == a[1..] + b;
      DigitsOfConcat(a[1..], b);
    }
  }

  lemma {:induction false} DigitsOfPlainSpaces(s: string)
    ensures DigitsOf(PlainSpaces(s)) == DigitsOf(s)
  {
    if s != "" {
      assert PlainSpaces(s)[1..] == PlainSpaces(s[1..]);
      DigitsOfPlainSpaces(s[1..]);
    }
  }

  lemma NothingInNoDigits(plus: bool)
    ensures FromDigits(plus, "") == None
  {
  }

  lemma TrimmedIs(raw: string)
    ensures StripRight(StripLeft(PlainSpaces(raw))) == Mark(Plus(raw), "+", StripRight(PlainSpaces(Body(raw))))
  {
    StripLeftOfPlainSpaces(raw);
    if Plus(raw) {
      DropUndone(AfterSpaces(raw), "+");
      assert PlainSpaces("+" + Body(raw)) == "+" + PlainSpaces(Body(raw));
      StripRightAfterPlus(PlainSpaces(Body(raw)));
    }
  }

  lemma {:induction false} AfterSpacesIsNoSpace(raw: string)
    ensures AfterSpaces(raw) != "" ==> !IsSpace(AfterSpaces(raw)[0])
  {
    if raw != "" && IsSpace(raw[0]) {
      AfterSpacesIsNoSpace(raw[1..]);
    }
  }

  lemma ReadWithPlus(s: string)
    ensures ReadTrimmed("+" + s) == if PlainText(s) then FromDigits(true, DigitsOf(s)) else None
  {
    DropsPrefix("+", s);
    assert ("+" + s)[1..] == s;
    NothingInNoDigits(true);
  }

  lemma ReadWithoutPlus(s: string)
    requires !StartsWith(s, "+")
    ensures ReadTrimmed(s) == if PlainText(s) then FromDigits(false, DigitsOf(s)) else None
  {
    NothingInNoDigits(false);
  }

  /** Separators never matter: a text is read exactly when nothing in it is illegible, and
      then it says what its digits say, after a "+" or not. */
  lemma SeparatorsDoNotMatter(raw: string)
    ensures NormalizePhoneForWhatsApp(Some(raw)) ==
            if Legible(Body(raw)) then FromDigits(Plus(raw), DigitsOf(Body(raw))) else None
  {
    var body := PlainSpaces(Body(raw));
    TrimmedIs(raw);
    StripRightKeeps(body);
    PlainTextIsLegible(Body(raw));
    DigitsOfPlainSpaces(Body(raw));
    if Plus(raw) {
      ReadWithPlus(StripRight(body));
    } else {
      AfterSpacesIsNoSpace(raw);
      assert body != "" ==> StripRight(body)[0] == body[0] == Body(raw)[0];
      ReadWithoutPlus(StripRight(body));
    }
  }

  // ---------------------------------------------------------------- the ways to write a number

  /** A national number: area code and subscriber, ten characters. */
  predicate Number(n: string) {
    |n| == NATIONAL && AreaStart(n)
  }

  /** Lengths the area code of a number can have. */
  predicate AreaLength(n: string, area: nat) {
    if StartsWith(n, "11") then area == 2 else area == 3 || area == 4
  }

  /** The number with the mobile 15 between area code and subscriber, or without. */
  function Local(n: string, fifteen: bool, area: nat): string
    requires area <= |n|
  {
    if fifteen then n[..area] + "15" + n[area..] else n
  }

  /** The first match for 15 never misreads an area code of four digits, and nothing else is
      read as the number. */
  lemma TenDigitsExactly(x: string, n: string)
    ensures ToTenDigits(x) == Some(n) <==>
            Number(n) && (x == n || exists area: nat :: area <= |n| && AreaLength(n, area) && x == Local(n, true, area))
  {
    if ToTenDigits(x) == Some(n) && x != n {
      var area := if StartsWith(x, "11") then 2 else if Without15(x, 3).Some? then 3 else 4;
      assert x == x[..area] + x[area..area + 2] + x[area + 2..];
      assert n[..area] == x[..area] && n[area..] == x[area + 2..];
      assert AreaLength(n, area) && x == Local(n, true, area);
    }
    if Number(n) {
      forall area: nat | area <= |n| && AreaLength(n, area) && x == Local(n, true, area)
        ensures ToTenDigits(x) == Some(n)
      {
        assert x[..area] == n[..area] && x[area..area + 2] == "15" && x[area + 2..] == n[area..];
        assert n[..area] + n[area..] == n;
        if area == 4 {
          assert x[4] == '1' && x[3..5][1] == '1';
        }
      }
    }
  }

  datatype Country = National | Plus | DoubleZero | Bare

  /** A way to write a number: the country prefix, the mobile 9, the trunk 0, the mobile 15
      and where the area code ends. */
  datatype Spelling = Spelling(country: Country, nine: bool, zero: bool, fifteen: bool, area: nat)

  function Tail(sp: Spelling, n: string): string
    requires sp.area <= |n|
  {
    Mark(sp.nine, "9", Mark(sp.zero, "0", Local(n, sp.fifteen, sp.area)))
  }

  function Digits(sp: Spelling, n: string): string
    requires sp.area <= |n|
  {
    match sp.country
    case National => Tail(sp, n)
    case Plus => "54" + Tail(sp, n)
    case DoubleZero => "00" + ("54" + Tail(sp, n))
    case Bare => "54" + Tail(sp, n)
  }

  /** The wa.me number. */
  function WaMe(mobile: bool, n: string): string {
    (if mobile then "549" else "54") + n
  }

  /** A spelling of a mobile: with a country prefix, the 9 or the 15 tells it is one. */
  predicate Mobile(sp: Spelling, n: string) {
    && Number(n) && AreaLength(n, sp.area)
    && (if sp.country.National? then !sp.nine else sp.nine || sp.fifteen)
  }

  predicate Landline(sp: Spelling, n: string) {
    Number(n) && AreaLength(n, sp.area) && !sp.country.National? && !sp.nine && !sp.fifteen
  }

  lemma LocalIsRead(n: string, fifteen: bool, area: nat)
    requires Number(n) && AreaLength(n, area)
    ensures var x := Local(n, fifteen, area);
            && ToTenDigits(x) == Some(n) && !StartsWith(x, "0") && !StartsWith(x, "9") && !StartsWith(x, "54")
            && |x| == if fifteen then 12 else 10
  {
    TenDigitsExactly(Local(n, fifteen, area), n);
    assert Local(n, fifteen, area)[0] == n[0];
  }

  lemma LocalIsTheOnlyText(x: string, n: string) returns (fifteen: bool, area: nat)
    requires ToTenDigits(x) == Some(n)
    ensures Number(n) && AreaLength(n, area) && x == Local(n, fifteen, area) && fifteen == (|x| == 12)
  {
    TenDigitsExactly(x, n);
    fifteen := x != n;
    if fifteen {
      area :| area <= |n| && AreaLength(n, area) && x == Local(n, true, area);
    } else {
      area := if StartsWith(n, "11") then 2 else 3;
    }
  }

  /** A 9 and a 0 in front, each there or not, come off a text that starts with neither. */
  lemma PrefixesComeOff(nine: bool, zero: bool, x: string)
    requires !StartsWith(x, "0") && !StartsWith(x, "9")
    ensures var y := Mark(nine, "9", Mark(zero, "0", x));
            StartsWith(y, "9") == nine && Drop(Drop(y, "9"), "0") == x
  {
    DropsPrefix("0", x);
    DropsPrefix("9", Mark(zero, "0", x));
    assert !StartsWith(Mark(zero, "0", x), "9");
  }

  lemma SpelledTailIsRead(sp: Spelling, n: string)
    requires Number(n) && AreaLength(n, sp.area)
    ensures FromArgentineInternational(Tail(sp, n)) == Some(WaMe(sp.nine || sp.fifteen, n))
  {
    LocalIsRead(n, sp.fifteen, sp.area);
    PrefixesComeOff(sp.nine, sp.zero, Local(n, sp.fifteen, sp.area));
  }

  lemma TailReadIsSpelled(y: string, r: string, country: Country) returns (sp: Spelling, n: string)
    requires FromArgentineInternational(y) == Some(r) && !country.National?
    ensures Number(n) && AreaLength(n, sp.area) && y == Tail(sp, n) && sp.country == country
    ensures r == WaMe(sp.nine || sp.fifteen, n)
  {
    var z := Drop(y, "9");
    var rest := Drop(z, "0");
    n := ToTenDigits(rest).value;
    var fifteen, area := LocalIsTheOnlyText(rest, n);
    sp := Spelling(country, StartsWith(y, "9"), StartsWith(z, "0"), fifteen, area);
    DropUndone(y, "9");
    DropUndone(z, "0");
  }

  lemma NationalIsRead(sp: Spelling, n: string)
    requires Mobile(sp, n) && sp.country.National?
    ensures FromDigits(false, Digits(sp, n)) == Some("549" + n)
  {
    var d, x := Digits(sp, n), Local(n, sp.fifteen, sp.area);
    LocalIsRead(n, sp.fifteen, sp.area);
    PrefixesComeOff(false, sp.zero, x);
    assert !StartsWith(d, "54");
    assert !StartsWith(d, "00") by {
      if sp.zero {
        assert d[1] == x[0] && x[0] == x[..1][0];
      }
    }
  }

  /** Every spelling of a mobile is read as 549 and its ten digits, and every spelling of a
      number without 9 nor 15 after the country code as 54 and its ten digits. */
  lemma SpelledDigitsAreRead(sp: Spelling, n: string)
    requires Mobile(sp, n) || Landline(sp, n)
    ensures FromDigits(sp.country.Plus?, Digits(sp, n)) == Some(WaMe(Mobile(sp, n), n))
  {
    if sp.country.National? {
      NationalIsRead(sp, n);
      return;
    }
    var tail := Tail(sp, n);
    SpelledTailIsRead(sp, n);
    LocalIsRead(n, sp.fifteen, sp.area);
    DropsPrefix("54", tail);
    if sp.country.DoubleZero? {
      DropsPrefix("00", "54" + tail);
    }
  }

  /** The number read after the country prefix, spelled. */
  predicate SpelledArgentine(plus: bool, d: string, r: string, sp: Spelling, n: string) {
    && (Mobile(sp, n) || Landline(sp, n)) && plus == sp.country.Plus? && d == Digits(sp, n)
    && r == WaMe(Mobile(sp, n), n)
  }

  lemma InternationalIsSpelled(d: string, r: string, country: Country) returns (sp: Spelling, n: string)
    requires FromArgentineInternational(Drop(d, "54")) == Some(r) && StartsWith(d, "54") && !country.National?
    ensures (Mobile(sp, n) || Landline(sp, n)) && sp.country == country && d == "54" + Tail(sp, n)
    ensures r == WaMe(Mobile(sp, n), n)
  {
    sp, n := TailReadIsSpelled(Drop(d, "54"), r, country);
    DropUndone(d, "54");
  }

  lemma NationalIsSpelled(d: string, r: string) returns (sp: Spelling, n: string)
    requires ToTenDigits(Drop(d, "0")).Some? && r == "549" + ToTenDigits(Drop(d, "0")).value
    ensures SpelledArgentine(false, d, r, sp, n)
  {
    var x := Drop(d, "0");
    n := ToTenDigits(x).value;
    var fifteen, area := LocalIsTheOnlyText(x, n);
    sp := Spelling(National, false, StartsWith(d, "0"), fifteen, area);
    DropUndone(d, "0");
  }

  /** A result is the number of a spelling of those digits, or foreign digits as they are. */
  lemma ReadDigitsAreSpelled(plus: bool, d: string, r: string) returns (sp: Spelling, n: string)
    requires FromDigits(plus, d) == Some(r)
    ensures SpelledArgentine(plus, d, r, sp, n) || Foreign(plus, d, r)
  {
    sp, n := Spelling(National, false, false, false, 2), "";
    if plus {
      if StartsWith(d, "54") {
        sp, n := InternationalIsSpelled(d, r, Country.Plus);
      }
    } else if StartsWith(d, "00") {
      DropUndone(d, "00");
      var e := Drop(d, "00");
      if StartsWith(e, "54") {
        sp, n := InternationalIsSpelled(e, r, DoubleZero);
      }
    } else if StartsWith(d, "54") && |d| >= NATIONAL_WITH_15 {
      sp, n := InternationalIsSpelled(d, r, Bare);
    } else {
      sp, n := NationalIsSpelled(d, r);
    }
  }

  /** Digits of another country: marked as international and of a plausible length. */
  predicate Foreign(plus: bool, d: string, r: string) {
    && d == (if plus then "" else "00") + r
    && 8 <= |r| <= 15 && !StartsWith(r, "54") && !StartsWith(r, "0")
  }

  // ---------------------------------------------------------------- main results

  predicate SpelledAs(raw: string, sp: Spelling, n: string)
    requires sp.area <= |n|
  {
    Legible(Body(raw)) && Plus(raw) == sp.country.Plus? && DigitsOf(Body(raw)) == Digits(sp, n)
  }

  predicate Spells(sp: Spelling, n: string, mobile: bool) {
    if mobile then Mobile(sp, n) else Landline(sp, n)
  }

  /** All spellings of one Argentine mobile, and no other text, are read as its 549 number;
      and only its spellings without 9 nor 15 after the country code as its 54 number. */
  lemma NumbersAreReadExactly(raw: string, n: string, mobile: bool)
    requires Number(n)
    ensures NormalizePhoneForWhatsApp(Some(raw)) == Some(WaMe(mobile, n)) <==>
            exists sp: Spelling :: Spells(sp, n, mobile) && SpelledAs(raw, sp, n)
  {
    forall sp: Spelling | Spells(sp, n, mobile) && SpelledAs(raw, sp, n)
      ensures NormalizePhoneForWhatsApp(Some(raw)) == Some(WaMe(mobile, n))
    {
      SpellingIsRead(raw, sp, n);
    }
    if NormalizePhoneForWhatsApp(Some(raw)) == Some(WaMe(mobile, n)) {
      var sp, m := ReadIsSpelledOrForeign(raw, WaMe(mobile, n));
      assert StartsWith(WaMe(mobile, n), "54");
      SameNumber(n, mobile, m, Mobile(sp, m));
      assert Spells(sp, n, mobile);
    }
  }

  lemma SameNumber(n: string, mobile: bool, m: string, otherMobile: bool)
    requires Number(n) && Number(m) && WaMe(mobile, n) == WaMe(otherMobile, m)
    ensures mobile == otherMobile && n == m
  {
    var r := WaMe(mobile, n);
    assert |r| == if mobile then 13 else 12;
    assert r[if mobile then 3 else 2..] == n;
    assert r[if otherMobile then 3 else 2..] == m;
  }

  lemma SpellingIsRead(raw: string, sp: Spelling, n: string)
    requires (Mobile(sp, n) || Landline(sp, n)) && SpelledAs(raw, sp, n)
    ensures NormalizePhoneForWhatsApp(Some(raw)) == Some(WaMe(Mobile(sp, n), n))
  {
    SeparatorsDoNotMatter(raw);
    SpelledDigitsAreRead(sp, n);
  }

  predicate ForeignResult(r: string) {
    8 <= |r| <= 15 && !StartsWith(r, "54") && !StartsWith(r, "0")
  }

  /** What was read and how it was spelled; or foreign digits. */
  lemma ReadIsSpelledOrForeign(raw: string, r: string) returns (sp: Spelling, n: string)
    requires NormalizePhoneForWhatsApp(Some(raw)) == Some(r)
    ensures ForeignResult(r) ||
            ((Mobile(sp, n) || Landline(sp, n)) && SpelledAs(raw, sp, n) && r == WaMe(Mobile(sp, n), n))
  {
    SeparatorsDoNotMatter(raw);
    sp, n := ReadDigitsAreSpelled(Plus(raw), DigitsOf(Body(raw)), r);
  }

  predicate AllDigits(s: string) {
    forall i | 0 <= i < |s| :: IsDigit(s[i])
  }

  lemma {:induction false} DigitsOfIsDigits(s: string)
    ensures AllDigits(DigitsOf(s))
  {
    if s != "" {
      DigitsOfIsDigits(s[1..]);
    }
  }

  lemma {:induction false} DigitsOfDigits(s: string)
    requires AllDigits(s)
    ensures DigitsOf(s) == s
  {
    if s != "" {
      DigitsOfDigits(s[1..]);
      assert s == [s[0]] + s[1..];
    }
  }

  lemma PartOfDigits(a: string, b: string)
    requires AllDigits(a + b)
    ensures AllDigits(a) && AllDigits(b)
  {
    forall i | 0 <= i < |a| ensures IsDigit(a[i]) {
      assert (a + b)[i] == a[i];
    }
    forall i | 0 <= i < |b| ensures IsDigit(b[i]) {
      assert (a + b)[|a| + i] == b[i];
    }
  }

  lemma LocalIsDigits(n: string, fifteen: bool, area: nat)
    requires area <= |n| && AllDigits(Local(n, fifteen, area))
    ensures AllDigits(n)
  {
    if fifteen {
      PartOfDigits(n[..area] + "15", n[area..]);
      PartOfDigits(n[..area], "15");
      assert n == n[..area] + n[area..];
    }
  }

  lemma DigitsInSpelling(sp: Spelling, n: string)
    requires sp.area <= |n| && AllDigits(Digits(sp, n))
    ensures AllDigits(n)
  {
    var local := Local(n, sp.fifteen, sp.area);
    var zeroed := Mark(sp.zero, "0", local);
    var tail := Tail(sp, n);
    if sp.country.DoubleZero? { PartOfDigits("00", "54" + tail); }
    if !sp.country.National? { PartOfDigits("54", tail); }
    if sp.nine { PartOfDigits("9", zeroed); }
    if sp.zero { PartOfDigits("0", local); }
    LocalIsDigits(n, sp.fifteen, sp.area);
  }

  lemma ForeignReadsBack(r: string)
    requires ForeignResult(r)
    ensures FromDigits(true, r) == Some(r)
  {
  }

  lemma ArgentineReadsBack(mobile: bool, n: string)
    requires Number(n)
    ensures FromDigits(true, WaMe(mobile, n)) == Some(WaMe(mobile, n))
  {
    var plain := Spelling(Country.Plus, mobile, false, false, if StartsWith(n, "11") then 2 else 3);
    SpelledDigitsAreRead(plain, n);
    assert "54" + ("9" + n) == "549" + n;
  }

  lemma DigitsReadBack(plus: bool, d: string, r: string)
    requires FromDigits(plus, d) == Some(r) && AllDigits(d)
    ensures FromDigits(true, r) == Some(r) && AllDigits(r)
  {
    var sp, n := ReadDigitsAreSpelled(plus, d, r);
    if SpelledArgentine(plus, d, r, sp, n) {
      ArgentineReadsBack(Mobile(sp, n), n);
      DigitsInSpelling(sp, n);
    } else {
      ForeignReadsBack(r);
      PartOfDigits(if plus then "" else "00", r);
    }
  }

  /** A result written with a "+" is read as itself. */
  lemma ResultReadsBack(raw: string, r: string)
    requires NormalizePhoneForWhatsApp(Some(raw)) == Some(r)
    ensures NormalizePhoneForWhatsApp(Some("+" + r)) == Some(r)
  {
    SeparatorsDoNotMatter(raw);
    DigitsOfIsDigits(Body(raw));
    DigitsReadBack(Plus(raw), DigitsOf(Body(raw)), r);
    DigitsOfDigits(r);
    DropsPrefix("+", r);
    assert AfterSpaces("+" + r) == "+" + r;
    SeparatorsDoNotMatter("+" + r);
  }
}
