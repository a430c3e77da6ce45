/** Resolving a character to a `Typeable`: the Win32 `VkKeyScan` result
    decoders, the static Neo2 layout table and the table-first lookup
    (`Keyboard` in dragonfly/actions/keyboard.py). */
module KeyCodes {
  import opened Bitwise
  import opened Typeables

  /** Win32 virtual-key codes VK_SHIFT, VK_CONTROL and VK_LMENU. */
  const ShiftCode: int := 0x10
  const CtrlCode: int := 0x11
  const AltCode: int := 0xA4

  /** Modifiers of the Neo2 layout; Mod2 is the ordinary shift key. */
  const Mod2Code: int := ShiftCode
  const Mod3Code: int := 226
  const Mod4Code: int := 223

  /** What `VkKeyScan` returns for a character the active layout cannot type. */
  const NoMapping: int := -1

  /** The `ValueError("Unknown char: ...")` raised for an unmappable character. */
  datatype Error = UnknownChar(ch: char)

  datatype Result<T> = Ok(value: T) | Err(error: Error)

  datatype Option<T> = None | Some(value: T)

  /** `get_keycode_and_modifiers`, given the packed integer `VkKeyScan` returned
      for `ch`: the low byte is the key, and bits 8, 9 and 10 ask for shift,
      ctrl or alt, of which only the first one set is reported. */
  function KeycodeAndModifiers(ch: char, packed: int): (r: Result<(int, seq<int>)>)
    ensures r.Err? <==> packed == NoMapping
    ensures r.Err? ==> r.error == UnknownChar(ch)
    ensures r.Ok? ==> 0 <= r.value.0 < 0x100 && r.value.0 == packed % 0x100
    ensures r.Ok? ==> |r.value.1| <= 1
    ensures r.Ok? ==> (r.value.1 == [ShiftCode] <==> HasBit(packed, 8))
    ensures r.Ok? ==> (r.value.1 == [CtrlCode] <==> !HasBit(packed, 8) && HasBit(packed, 9))
    ensures r.Ok? ==> (r.value.1 == [AltCode]
                       <==> !HasBit(packed, 8) && !HasBit(packed, 9) && HasBit(packed, 10))
    ensures r.Ok? ==> (r.value.1 == []
                       <==> !HasBit(packed, 8) && !HasBit(packed, 9) && !HasBit(packed, 10))
  {
    if packed == NoMapping then Err(UnknownChar(ch))
    else
      var modifiers :=
        if BitAnd(packed, 0x0100) != 0 then [ShiftCode]
        else if BitAnd(packed, 0x0200) != 0 then [CtrlCode]
        else if BitAnd(packed, 0x0400) != 0 then [AltCode]
        else [];
      KeyScanMasks(packed);
      Ok((BitAnd(packed, 0x00ff), modifiers))
  }

  /** How `VkKeyScan` packs a key and at most one of shift, ctrl and alt. */
  function KeyScanPack(code: int, modifiers: seq<int>): int
  {
    code + (if modifiers == [ShiftCode] then 0x100
            else if modifiers == [CtrlCode] then 0x200
            else if modifiers == [AltCode] then 0x400
            else 0)
  }

  /** Decoding a packed key gives back the key and its modifier. */
  lemma KeyScanRoundTrip(ch: char, code: int, modifiers: seq<int>)
    requires 0 <= code < 0x100
    requires modifiers == [] || modifiers == [ShiftCode] || modifiers == [CtrlCode] || modifiers == [AltCode]
    ensures KeycodeAndModifiers(ch, KeyScanPack(code, modifiers)) == Ok((code, modifiers))
  {
    if modifiers == [] {
      PackedDecodes(ch, code, 0);
    } else if modifiers == [ShiftCode] {
      PackedDecodes(ch, code, 1);
    } else if modifiers == [CtrlCode] {
      PackedDecodes(ch, code, 2);
    } else {
      PackedDecodes(ch, code, 4);
    }
  }

  /** A key below 256 with at most one of bits 8, 9, 10 set decodes to that key
      and the modifier of the bit. */
  lemma PackedDecodes(ch: char, code: int, hi: int)
    requires 0 <= code < 0x100 && (hi == 0 || hi == 1 || hi == 2 || hi == 4)
    ensures KeycodeAndModifiers(ch, code + 0x100 * hi)
            == Ok((code, if hi == 1 then [ShiftCode] else if hi == 2 then [CtrlCode]
                         else if hi == 4 then [AltCode] else []))
  {
    PackedBits(code, hi);
    DecodedModifier(ch, code + 0x100 * hi);
  }

  /** Which modifier the decoder reports, by the first of bits 8, 9, 10 set. */
  lemma DecodedModifier(ch: char, x: int)
    requires x != NoMapping
    ensures KeycodeAndModifiers(ch, x)
            == Ok((x % 0x100, if HasBit(x, 8) then [ShiftCode]
                              else if HasBit(x, 9) then [CtrlCode]
                              else if HasBit(x, 10) then [AltCode]
                              else []))
  {
  }

  /** The bits of a key code below 256 with `hi` placed from bit 8 upwards. */
  lemma PackedBits(code: int, hi: int)
    requires 0 <= code < 0x100 && (hi == 0 || hi == 1 || hi == 2 || hi == 4)
    ensures var x := code + 0x100 * hi;
      x != NoMapping && x % 0x100 == code
      && (HasBit(x, 8) <==> hi == 1) && (HasBit(x, 9) <==> hi == 2) && (HasBit(x, 10) <==> hi == 4)
  {
    var x := code + 0x100 * hi;
    assert Pow2(8) == 0x100 && Pow2(9) == 0x200 && Pow2(10) == 0x400;
    DivModUnique(x, 0x100, hi, code);
    if hi == 0 {
      DivModUnique(x, 0x200, 0, x);
      DivModUnique(x, 0x400, 0, x);
    } else if hi == 1 {
      DivModUnique(x, 0x200, 0, x);
      DivModUnique(x, 0x400, 0, x);
    } else if hi == 2 {
      DivModUnique(x, 0x200, 1, code);
      DivModUnique(x, 0x400, 0, x);
    } else {
      DivModUnique(x, 0x200, 2, code);
      DivModUnique(x, 0x400, 1, code);
    }
  }

  /** `xget_virtual_keycode`: the same decoding, returned as one list with the
      key code first. */
  function XVirtualKeycode(ch: char, packed: int): (r: Result<seq<int>>)
    ensures r.Err? <==> KeycodeAndModifiers(ch, packed).Err?
    ensures r.Err? ==> r.error == KeycodeAndModifiers(ch, packed).error
    ensures r.Ok? ==> r.value == [KeycodeAndModifiers(ch, packed).value.0]
                                 + KeycodeAndModifiers(ch, packed).value.1
  {
    if packed == NoMapping then Err(UnknownChar(ch))
    else
      var codes := [BitAnd(packed, 0x00ff)];
      Ok(if BitAnd(packed, 0x0100) != 0 then codes + [ShiftCode]
         else if BitAnd(packed, 0x0200) != 0 then codes + [CtrlCode]
         else if BitAnd(packed, 0x0400) != 0 then codes + [AltCode]
         else codes)
  }

  /** `get_neo2_typeable`: the static Neo2 table. Each entry is a code whose
      upper bits hold layout shift state, and the modifiers to hold; `None`
      stands for the `(-1, -1)` returned for a character the table lacks. */
  function Neo2Typeable(ch: char): Option<(int, seq<int>)>
  {
    match ch
    case ' ' => Some((32, []))
    case 'a' => Some((65, []))
    case 'b' => Some((66, []))
    case 'c' => Some((67, []))
    case 'd' => Some((68, []))
    case 'e' => Some((69, []))
    case 'f' => Some((70, []))
    case 'g' => Some((71, []))
    case 'h' => Some((72, []))
    case 'i' => Some((73, []))
    case 'j' => Some((74, []))
    case 'k' => Some((75, []))
    case 'l' => Some((76, []))
    case 'm' => Some((77, []))
    case 'n' => Some((78, []))
    case 'o' => Some((79, []))
    case 'p' => Some((80, []))
    case 'q' => Some((81, []))
    case 'r' => Some((82, []))
    case 's' => Some((83, []))
    case 't' => Some((84, []))
    case 'u' => Some((85, []))
    case 'v' => Some((86, []))
    case 'w' => Some((87, []))
    case 'x' => Some((88, []))
    case 'y' => Some((89, []))
    case 'z' => Some((90, []))
    case 'A' => Some((321, [Mod2Code]))
    case 'B' => Some((322, [Mod2Code]))
    case 'C' => Some((323, [Mod2Code]))
    case 'D' => Some((324, [Mod2Code]))
    case 'E' => Some((325, [Mod2Code]))
    case 'F' => Some((326, [Mod2Code]))
    case 'G' => Some((327, [Mod2Code]))
    case 'H' => Some((328, [Mod2Code]))
    case 'I' => Some((329, [Mod2Code]))
    case 'J' => Some((330, [Mod2Code]))
    case 'K' => Some((331, [Mod2Code]))
    case 'L' => Some((332, [Mod2Code]))
    case 'M' => Some((333, [Mod2Code]))
    case 'N' => Some((334, [Mod2Code]))
    case 'O' => Some((335, [Mod2Code]))
    case 'P' => Some((336, [Mod2Code]))
    case 'Q' => Some((337, [Mod2Code]))
    case 'R' => Some((338, [Mod2Code]))
    case 'S' => Some((339, [Mod2Code]))
    case 'T' => Some((340, [Mod2Code]))
    case 'U' => Some((341, [Mod2Code]))
    case 'V' => Some((342, [Mod2Code]))
    case 'W' => Some((343, [Mod2Code]))
    case 'X' => Some((344, [Mod2Code]))
    case 'Y' => Some((345, [Mod2Code]))
    case 'Z' => Some((346, [Mod2Code]))
    case '0' => Some((48, []))
    case '1' => Some((49, []))
    case '2' => Some((2236, [Mod4Code]))
    case '3' => Some((51, []))
    case '4' => Some((52, []))
    case '5' => Some((53, []))
    case '6' => Some((2132, [Mod4Code]))
    case '7' => Some((55, []))
    case '8' => Some((56, []))
    case '9' => Some((57, []))
    case '!' => Some((4171, [Mod3Code]))
    case '@' => Some((4185, [Mod3Code]))
    case '#' => Some((4316, [Mod3Code]))
    case '$' => Some((4317, [Mod3Code]))
    case '%' => Some((4173, [Mod3Code]))
    case '^' => Some((186, [Mod3Code]))
    case '&' => Some((4177, [Mod3Code]))
    case '*' => Some((2096, [Mod4Code]))
    case '(' => Some((4174, [Mod3Code]))
    case ')' => Some((4178, [Mod3Code]))
    case '-' => Some((189, [Mod4Code]))
    case '_' => Some((4182, [Mod3Code]))
    case '+' => Some((2129, [Mod4Code]))
    case '`' => Some((191, [Mod3Code]))
    case '~' => Some((4176, [Mod3Code]))
    case '[' => Some((4172, [Mod3Code]))
    case ']' => Some((4163, [Mod3Code]))
    case '{' => Some((4161, [Mod3Code]))
    case '}' => Some((4165, [Mod3Code]))
    case '\\' => Some((4181, [Mod3Code]))
    case '|' => Some((4318, [Mod3Code]))
    case ':' => Some((4164, [Mod3Code]))
    case ';' => Some((4170, [Mod3Code]))
    case '\'' => Some((4286, [Mod3Code]))
    case '"' => Some((4284, [Mod3Code]))
    case ',' => Some((2116, [Mod4Code]))
    case '.' => Some((190, []))
    case '/' => Some((2105, [Mod4Code]))
    case '<' => Some((4168, [Mod3Code]))
    case '>' => Some((4167, [Mod3Code]))
    case '?' => Some((4179, [Mod3Code]))
    case '=' => Some((4166, [Mod3Code]))
    case _ => None
  }

  /** `get_typeable`: the Neo2 table first, its code masked to the low byte;
      on a miss, the decoded `VkKeyScan` result `packed` for `ch`, which is
      consulted only then. */
  function GetTypeable(ch: char, packed: int): (r: Result<Typeable>)
    ensures Neo2Typeable(ch).Some? ==>
      r == Ok(Typeable(Neo2Typeable(ch).value.0 % 0x100, Neo2Typeable(ch).value.1))
    ensures Neo2Typeable(ch).None? ==>
      r == match KeycodeAndModifiers(ch, packed)
           case Ok((code, modifiers)) => Ok(Typeable(code, modifiers))
           case Err(e) => Err(e)
    ensures r.Err? <==> Neo2Typeable(ch).None? && packed == NoMapping
    ensures r.Ok? ==> 0 <= r.value.code < 0x100 && |r.value.modifiers| <= 1
  {
    Neo2EntriesWellFormed();
    match Neo2Typeable(ch)
    case Some((code, modifiers)) =>
      KeyScanMasks(code);
      Ok(Typeable(BitAnd(code, 0x00ff), modifiers))
    case None =>
      match KeycodeAndModifiers(ch, packed)
      case Ok((code, modifiers)) => Ok(Typeable(code, modifiers))
      case Err(e) => Err(e)
  }

  /** Every table entry has a non-negative code, so the source's `code == -1`
      miss test never mistakes a hit for a miss, and holds at most one of the
      three Neo2 modifiers. */
  lemma Neo2EntriesWellFormed()
    ensures forall ch | Neo2Typeable(ch).Some? ::
      var (code, modifiers) := Neo2Typeable(ch).value;
      code >= 0
      && (modifiers == [] || modifiers == [Mod2Code] || modifiers == [Mod3Code] || modifiers == [Mod4Code])
  {
  }

  /** The table covers exactly the printable ASCII characters, from space to tilde. */
  lemma Neo2CoversPrintableAscii(ch: char)
    ensures Neo2Typeable(ch).Some? <==> ' ' <= ch <= '~'
  {
  }

  /** Every printable ASCII character resolves, whatever the OS would have said. */
  lemma PrintableAsciiAlwaysResolves(ch: char, packed: int)
    requires ' ' <= ch <= '~'
    ensures GetTypeable(ch, packed).Ok?
  {
    Neo2CoversPrintableAscii(ch);
  }

  function UpperCase(ch: char): char
    requires 'a' <= ch <= 'z'
  {
    (ch as int - 32) as char
  }

  lemma Neo2Lowercase(ch: char)
    requires 'a' <= ch <= 'z'
    ensures Neo2Typeable(ch) == Some((ch as int - 32, []))
  {
  }

  lemma Neo2Uppercase(ch: char)
    requires 'A' <= ch <= 'Z'
    ensures Neo2Typeable(ch) == Some((ch as int + 256, [Mod2Code]))
  {
    match ch
    case 'A' =>
    case 'B' =>
    case 'C' =>
    case 'D' =>
    case 'E' =>
    case 'F' =>
    case 'G' =>
    case 'H' =>
    case 'I' =>
    case 'J' =>
    case 'K' =>
    case 'L' =>
    case 'M' =>
    case 'N' =>
    case 'O' =>
    case 'P' =>
    case 'Q' =>
    case 'R' =>
    case 'S' =>
    case 'T' =>
    case 'U' =>
    case 'V' =>
    case 'W' =>
    case 'X' =>
    case 'Y' =>
    case 'Z' =>
    case _ =>
  }

  /** A lowercase letter is its own virtual key (its uppercase ASCII code) with
      no modifier; its uppercase entry masks to the same key and adds Mod2. */
  lemma Neo2LettersShareKeys(ch: char)
    requires 'a' <= ch <= 'z'
    ensures Neo2Typeable(ch) == Some((ch as int - 32, []))
    ensures Neo2Typeable(UpperCase(ch)).Some?
    ensures Neo2Typeable(UpperCase(ch)).value.0 % 0x100 == Neo2Typeable(ch).value.0
    ensures Neo2Typeable(UpperCase(ch)).value.1 == [Mod2Code]
  {
    Neo2Lowercase(ch);
    Neo2Uppercase(UpperCase(ch));
  }

  /** For the entries whose only modifier is shift (or none), the table code is
      packed the way `VkKeyScan` packs its result: decoding it gives back the
      very key and modifier list the table lookup yields. */
  lemma Neo2ShiftEntriesArePacked(ch: char)
    requires Neo2Typeable(ch).Some?
    requires Neo2Typeable(ch).value.1 == [] || Neo2Typeable(ch).value.1 == [Mod2Code]
    ensures KeycodeAndModifiers(ch, Neo2Typeable(ch).value.0)
            == Ok((Neo2Typeable(ch).value.0 % 0x100, Neo2Typeable(ch).value.1))
  {
    var (code, modifiers) := Neo2Typeable(ch).value;
    Neo2ShiftEntryRange(ch);
    assert Pow2(8) == 0x100 && Pow2(9) == 0x200 && Pow2(10) == 0x400;
    if modifiers == [] {
      assert !HasBit(code, 8) && !HasBit(code, 9) && !HasBit(code, 10);
    } else {
      assert HasBit(code, 8);
    }
  }

  /** Unshifted entries have a code below 256; shifted ones have bit 8 set and nothing above. */
  lemma Neo2ShiftEntryRange(ch: char)
    requires Neo2Typeable(ch).Some?
    ensures Neo2Typeable(ch).value.1 == [] ==> 0 <= Neo2Typeable(ch).value.0 < 0x100
    ensures Neo2Typeable(ch).value.1 == [Mod2Code] ==> 0x100 <= Neo2Typeable(ch).value.0 < 0x200
  {
  }

  /** Typing "A" on the Neo2 layout: the table code 321 masks to the key of "a"
      and comes with Mod2. */
  lemma Neo2UppercaseAExample(packed: int)
    ensures GetTypeable('A', packed) == Ok(Typeable(65, [Mod2Code]))
  {
    Neo2Uppercase('A');
    var entry := Neo2Typeable('A').value;
    assert entry == (321, [Mod2Code]);
    assert entry.0 % 0x100 == 65;
  }

  /** The keystroke of the unmasked table entry for "A": a Mod2 press and release
      around the key. */
  lemma Neo2UppercaseAKeystroke()
    ensures Keystroke(Typeable(321, [Mod2Code]), 0)
            == [Event(Mod2Code, true, 0), Event(321, true, 0), Event(321, false, 0), Event(Mod2Code, false, 0)]
  {
    assert Reverse([Mod2Code]) == [Mod2Code];
  }
}
