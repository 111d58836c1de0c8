/** Classification of octets by the grammars of RFC 822, 2045, 2046 and 6838 (mime_chars.c). */
module MimeChars {
  import opened Bytes
  import opened ParserEngine

  // Bit numbers of the class masks.
  const TOKEN_CHAR := 10
  const TOKEN_ALPHA := 11
  const TOKEN_DIGIT := 12
  const TOKEN_CTL := 13
  const TOKEN_LWSP := 14
  const TOKEN_SPECIAL := 15
  const TOKEN_ATOM := 16
  const TOKEN_QTEXT := 18
  const TOKEN_DTEXT := 19
  const TOKEN_CTEXT := 20
  const TOKEN_BCHARS := 21
  const TOKEN_BCHARS_NOSPACE := 22
  const TOKEN_REST_NAME_FIRST := 23
  const TOKEN_REST_NAME_CHARS := 24
  const TOKEN_TSPECIAL := 25

  predicate IsAlpha(c: byte) { 65 <= c <= 90 || 97 <= c <= 122 }

  predicate IsDigit(c: byte) { 48 <= c <= 57 }

  predicate IsAlnum(c: byte) { IsAlpha(c) || IsDigit(c) }

  /** CHAR: any ASCII octet. */
  predicate IsChar(c: byte) { c <= 127 }

  /** CTL as the code has it: DEL (127), which RFC 822 counts in, is left out. */
  predicate IsCtl(c: byte) { c <= 31 }

  /** ()<>@,;:\".][ */
  const SPECIALS: seq<byte> := [40, 41, 60, 62, 64, 44, 59, 58, 92, 34, 46, 93, 91]

  /** ()<>@,;:\"/][?= */
  const TSPECIALS: seq<byte> := [40, 41, 60, 62, 64, 44, 59, 58, 92, 34, 47, 93, 91, 63, 61]

  /** '()+_,-./:=? */
  const BCHAR_MARKS: seq<byte> := [39, 40, 41, 43, 95, 44, 45, 46, 47, 58, 61, 63]

  /** !#$&-^_.+ */
  const RESTRICTED_MARKS: seq<byte> := [33, 35, 36, 38, 45, 94, 95, 46, 43]

  /** LWSP-char: space or horizontal tab. */
  predicate IsLwsp(c: byte) { c == SPACE || c == TAB }

  predicate IsSpecial(c: byte) { c in SPECIALS }

  predicate IsAtom(c: byte) { IsChar(c) && !IsSpecial(c) && c != SPACE && !IsCtl(c) }

  predicate IsQtext(c: byte) { IsChar(c) && c !in {34, 92, 13} }

  predicate IsDtext(c: byte) { IsChar(c) && c !in {91, 93, 92, 13} }

  predicate IsCtext(c: byte) { IsChar(c) && c !in {40, 41, 92, 13} }

  predicate InClass(bit: nat, c: byte) {
    match bit
    case 10 => IsChar(c)
    case 11 => IsAlpha(c)
    case 12 => IsDigit(c)
    case 13 => IsCtl(c)
    case 14 => IsLwsp(c)
    case 15 => IsSpecial(c)
    case 16 => IsAtom(c)
    case 18 => IsQtext(c)
    case 19 => IsDtext(c)
    case 20 => IsCtext(c)
    case 21 => IsAlnum(c) || c == SPACE || c in BCHAR_MARKS
    case 22 => IsAlnum(c) || c in BCHAR_MARKS
    case 23 => IsAlnum(c)
    case 24 => IsAlnum(c) || c in RESTRICTED_MARKS
    case 25 => c in TSPECIALS
    case _ => false
  }

  /** The mask of an octet, read off the grammars. */
  function ClassOf(c: byte): Mask {
    set bit | 10 <= bit <= 25 && InClass(bit, c)
  }

  function ClassTable(): Classes {
    seq(256, (i: nat) requires i < 256 => ClassOf(i))
  }

  const CLASSES: Classes := ClassTable()

  lemma ClassMatch(bit: nat, c: byte)
    requires 10 <= bit <= 25
    ensures Matches(CLASSES, Class({bit}), c) <==> InClass(bit, c)
  {
    assert CLASSES[c] == ClassOf(c);
    if InClass(bit, c) {
      assert bit in CLASSES[c] * {bit};
    }
  }

  // ----- The table, filled in place -----

  const ALNUM_CLASSES: Mask := {TOKEN_BCHARS_NOSPACE, TOKEN_BCHARS, TOKEN_REST_NAME_FIRST, TOKEN_REST_NAME_CHARS}

  /** classes[c] |= mask for each of the octets. */
  method Mark(classes: array<Mask>, octets: seq<byte>, mask: Mask)
    requires classes.Length == 256
    modifies classes
    ensures forall i: byte :: classes[i] == old(classes[i]) + if i in octets then mask else {}
  {
    for k := 0 to |octets|
      invariant forall i: byte :: classes[i] == old(classes[i]) + if i in octets[..k] then mask else {}
    {
      classes[octets[k]] := classes[octets[k]] + mask;
      assert octets[..k + 1] == octets[..k] + [octets[k]];
    }
    assert octets[..|octets|] == octets;
  }

  /** What an octet's place among the letters, digits and controls gives it. */
  function Plain(c: byte): Mask {
    (if c <= 127 then {TOKEN_CHAR} else {})
    + (if 65 <= c <= 90 then {TOKEN_ALPHA} + ALNUM_CLASSES else {})
    + (if 97 <= c <= 122 then {TOKEN_ALPHA} + ALNUM_CLASSES else {})
    + (if 48 <= c <= 57 then {TOKEN_DIGIT} + ALNUM_CLASSES else {})
    + (if c <= 31 then {TOKEN_CTL} else {})
  }

  /** What texts an octet may stand in, as the classes it has so far tell. */
  function Texts(c: byte, class_: Mask): Mask {
    if TOKEN_CHAR !in class_ then {}
    else
      (if c == SPACE || class_ * {TOKEN_SPECIAL, TOKEN_CTL} != {} then {} else {TOKEN_ATOM})
      + (if c == 34 || c == 92 || c == CR then {} else {TOKEN_QTEXT})
      + (if c == 91 || c == 93 || c == 92 || c == CR then {} else {TOKEN_DTEXT})
      + (if c == 40 || c == 41 || c == 92 || c == CR then {} else {TOKEN_CTEXT})
  }

  method FillPlain(classes: array<Mask>)
    requires classes.Length == 256
    modifies classes
    ensures forall i: byte :: classes[i] == if i < 255 then Plain(i) else old(classes[i])
  {
    for i := 0 to 255
      invariant forall j: byte :: classes[j] == if j < i then Plain(j) else old(classes[j])
    {
      var class_: Mask := {};
      if i <= 127 {
        class_ := class_ + {TOKEN_CHAR};
      }
      if 65 <= i <= 90 {
        class_ := class_ + ({TOKEN_ALPHA} + ALNUM_CLASSES);
      }
      if 97 <= i <= 122 {
        class_ := class_ + ({TOKEN_ALPHA} + ALNUM_CLASSES);
      }
      if 48 <= i <= 57 {
        class_ := class_ + ({TOKEN_DIGIT} + ALNUM_CLASSES);
      }
      if i <= 31 {
        class_ := class_ + {TOKEN_CTL};
      }
      classes[i] := class_;
    }
  }

  method MarkTexts(classes: array<Mask>)
    requires classes.Length == 256
    modifies classes
    ensures forall i: byte :: classes[i] == old(classes[i]) + if i < 255 then Texts(i, old(classes[i])) else {}
  {
    for i := 0 to 255
      invariant forall j: byte :: classes[j] == old(classes[j]) + if j < i then Texts(j, old(classes[j])) else {}
    {
      var class_ := classes[i];
      if TOKEN_CHAR in class_ {
        if i == SPACE || class_ * {TOKEN_SPECIAL, TOKEN_CTL} != {} {
        } else {
          classes[i] := classes[i] + {TOKEN_ATOM};
        }
        if !(i == 34 || i == 92 || i == CR) {
          classes[i] := classes[i] + {TOKEN_QTEXT};
        }
        if !(i == 91 || i == 93 || i == 92 || i == CR) {
          classes[i] := classes[i] + {TOKEN_DTEXT};
        }
        if !(i == 40 || i == 41 || i == 92 || i == CR) {
          classes[i] := classes[i] + {TOKEN_CTEXT};
        }
      }
    }
  }

  function Early(c: byte): Mask {
    (if c < 255 then Plain(c) else {})
    + (if IsLwsp(c) then {TOKEN_LWSP} else {})
    + (if c in SPECIALS then {TOKEN_SPECIAL} else {})
  }

  function Late(c: byte): Mask {
    (if c in TSPECIALS then {TOKEN_TSPECIAL} else {})
    + (if c == SPACE then {TOKEN_BCHARS} else {})
    + (if c in BCHAR_MARKS then {TOKEN_BCHARS_NOSPACE, TOKEN_BCHARS} else {})
    + (if c in RESTRICTED_MARKS then {TOKEN_REST_NAME_CHARS} else {})
  }

  function ClassesBetween(c: byte, low: nat, high: nat): Mask {
    set bit | low <= bit <= high && InClass(bit, c)
  }

  lemma EarlyMarks(c: byte)
    ensures Early(c) ==
            ClassesBetween(c, TOKEN_CHAR, TOKEN_SPECIAL) + if IsAlnum(c) then ALNUM_CLASSES else {}
  {
  }

  lemma TextMarks(c: byte)
    ensures Texts(c, Early(c)) == ClassesBetween(c, TOKEN_ATOM, TOKEN_CTEXT)
  {
    EarlyMarks(c);
  }

  lemma LateMarks(c: byte)
    ensures (if IsAlnum(c) then ALNUM_CLASSES else {}) + Late(c) ==
            ClassesBetween(c, TOKEN_BCHARS, TOKEN_TSPECIAL)
  {
  }

  /** All the marks an octet gets are the classes the grammars give it. */
  lemma MarksAreClasses(c: byte)
    ensures Early(c) + (if c < 255 then Texts(c, Early(c)) else {}) + Late(c) == ClassOf(c)
  {
    EarlyMarks(c);
    TextMarks(c);
    LateMarks(c);
    assert ClassOf(c) == ClassesBetween(c, TOKEN_CHAR, TOKEN_SPECIAL)
                         + ClassesBetween(c, TOKEN_ATOM, TOKEN_CTEXT)
                         + ClassesBetween(c, TOKEN_BCHARS, TOKEN_TSPECIAL);
  }

  method FillEarly(classes: array<Mask>)
    requires classes.Length == 256 && classes[255] == {}
    modifies classes
    ensures forall i: byte :: classes[i] == Early(i)
  {
    FillPlain(classes);
    Mark(classes, [TAB, SPACE], {TOKEN_LWSP});
    Mark(classes, SPECIALS, {TOKEN_SPECIAL});
  }

  method MarkLate(classes: array<Mask>)
    requires classes.Length == 256
    modifies classes
    ensures forall i: byte :: classes[i] == old(classes[i]) + Late(i)
  {
    Mark(classes, TSPECIALS, {TOKEN_TSPECIAL});
    Mark(classes, [SPACE], {TOKEN_BCHARS});
    Mark(classes, BCHAR_MARKS, {TOKEN_BCHARS_NOSPACE, TOKEN_BCHARS});
    Mark(classes, RESTRICTED_MARKS, {TOKEN_REST_NAME_CHARS});
  }

  /** init_char_class, on a table that is all zeros where it is not written. */
  method InitCharClass(classes: array<Mask>)
    requires classes.Length == 256 && classes[255] == {}
    modifies classes
    ensures classes[..] == ClassTable()
  {
    FillEarly(classes);
    MarkTexts(classes);
    MarkLate(classes);
    forall i: byte
      ensures classes[i] == ClassOf(i)
    {
      MarksAreClasses(i);
    }
  }
}
