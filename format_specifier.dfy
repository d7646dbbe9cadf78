/**
  Format specifiers: the printf-style placeholders (`%d`, `%@`, ...) found in
  a localized string, their canonical tokens, their classification from a
  token, and the left-to-right scan that finds them in a text.
 */
module FormatSpecifiers {
  import opened Text

  datatype FormatSpecifier =
    | Any                                        // %@
    | Integer                                    // %d, %D
    | UnsignedInteger                            // %u, %U
    | Hex(uppercase: bool)                       // %x, %X
    | Octal(uppercase: bool)                     // %o, %O
    | Double                                     // %f
    | DoubleScientificNotation(uppercase: bool)  // %e, %E
    | Exponent(uppercase: bool)                  // %g, %G
    | UnsignedCharacter                          // %c
    | Unicharacter                               // %C
    | Unsigned8BitCharacters                     // %s
    | Unsigned16BitCharacters                    // %S
    | DoubleHexScientificNotation(uppercase: bool) // %a, %A
    | DoubleDecimalNotation                      // %F

  /** The letter of a variant's canonical token. */
  function TokenLetter(f: FormatSpecifier): char {
    match f
    case Any => '@'
    case Integer => 'd'
    case UnsignedInteger => 'u'
    case Hex(upper) => if upper then 'X' else 'x'
    case Octal(upper) => if upper then 'O' else 'o'
    case Double => 'f'
    case DoubleScientificNotation(upper) => if upper then 'E' else 'e'
    case Exponent(upper) => if upper then 'G' else 'g'
    case UnsignedCharacter => 'c'
    case Unicharacter => 'C'
    case Unsigned8BitCharacters => 's'
    case Unsigned16BitCharacters => 'S'
    case DoubleHexScientificNotation(upper) => if upper then 'A' else 'a'
    case DoubleDecimalNotation => 'F'
  }

  /** `asSpecifier`: the canonical token of a variant, `%` and one letter. */
  function AsSpecifier(f: FormatSpecifier): (r: string)
    ensures |r| == 2 && r[0] == '%' && r[1] != '%'
  {
    ['%', TokenLetter(f)]
  }

  /** The classification of a one-character token (what `from` does once `%` is removed). */
  function Classify(c: char): FormatSpecifier {
    match c
    case '@' => Any
    case 'd' => Integer
    case 'D' => Integer
    case 'u' => UnsignedInteger
    case 'U' => UnsignedInteger
    case 'x' => Hex(false)
    case 'X' => Hex(true)
    case 'o' => Octal(false)
    case 'O' => Octal(true)
    case 'f' => Double
    case 'e' => DoubleScientificNotation(false)
    case 'E' => DoubleScientificNotation(true)
    case 'g' => Exponent(false)
    case 'G' => Exponent(true)
    case 'c' => UnsignedCharacter
    case 'C' => Unsigned8BitCharacters
    case 'S' => Unsigned8BitCharacters
    case 'a' => DoubleHexScientificNotation(false)
    case 'A' => DoubleHexScientificNotation(true)
    case 'F' => DoubleDecimalNotation
    case _ => Any
  }

  /**
    `FormatSpecifier.from`: every `%` is removed and what remains is looked
    up case-sensitively; anything that is not one listed letter is `Any`.
   */
  function From(value: string): (r: FormatSpecifier)
    ensures RemoveAll(value, "%") == [] ==> r == Any
    ensures |RemoveAll(value, "%")| > 1 ==> r == Any
  {
    var letters := RemoveAll(value, "%");
    if |letters| == 1 then Classify(letters[0]) else Any
  }

  /** The classification table, as it stands, for the letters the documentation pairs differently. */
  lemma {:induction false} FromCaseSensitive()
    ensures From("%D") == Integer && From("%U") == UnsignedInteger
    ensures From("%C") == Unsigned8BitCharacters && From("%S") == Unsigned8BitCharacters
    ensures From("%s") == Any && From("%F") == DoubleDecimalNotation
    ensures From("d") == Integer && From("%%d") == Integer && From("%lu") == Any
  {
    assert RemoveAll("%D", "%") == "D";
    assert RemoveAll("%U", "%") == "U";
    assert RemoveAll("%C", "%") == "C";
    assert RemoveAll("%S", "%") == "S";
    assert RemoveAll("%s", "%") == "s";
    assert RemoveAll("%F", "%") == "F";
    assert RemoveAll("d", "%") == "d";
    assert RemoveAll("%%d", "%") == "d";
    assert RemoveAll("%lu", "%") == "lu";
  }

  /** `From` only ever sees the text with its `%` characters removed. */
  lemma {:induction false} FromIgnoresPercent(value: string)
    ensures From(value) == From(RemoveAll(value, "%"))
  {
    var letters := RemoveAll(value, "%");
    RemoveAllSingle(value, '%');
    RemoveAllAbsent(letters, "%") by {
      forall i: nat ensures !OccursAt(letters, "%", i) {
        if i + 1 <= |letters| {
          assert letters[i..i + 1] == [letters[i]];
        }
      }
    }
  }

  lemma {:induction false} FromToken(c: char)
    requires c != '%'
    ensures From(['%', c]) == Classify(c)
  {
    var token := ['%', c];
    assert token[..1] == "%";
    assert token[1..] == [c];
    assert RemoveAll([c], "%") == [c];
    assert RemoveAll(token, "%") == [c];
  }

  /**
    Reading a canonical token back gives the variant again, except for the
    three character variants whose tokens `from` classifies otherwise
    (`%C` and `%S` as 8-bit characters, `%s` as `Any`).
   */
  lemma {:induction false} FromAsSpecifier(f: FormatSpecifier)
    ensures From(AsSpecifier(f)) == f <==> !(f.Unicharacter? || f.Unsigned8BitCharacters? || f.Unsigned16BitCharacters?)
  {
    FromToken(TokenLetter(f));
  }

  // ------------------------------------------------------------------ scan

  /** The letters of the search pattern `%[@dDuUxXoOfeEgGcCSaAf]` (`f` twice, no `F`, no `s`). */
  const ScanLetters: string := "@dDuUxXoOfeEgGcCSaAf"

  /** The pattern matches the two characters at position `i`. */
  predicate MatchAt(text: string, i: nat) {
    i + 1 < |text| && text[i] == '%' && text[i + 1] in ScanLetters
  }

  /** A match cannot start on the letter of the match before it. */
  lemma {:induction false} PercentIsNoScanLetter()
    ensures '%' !in ScanLetters
  {
  }

  /** No letter of the pattern reads as `%F`, `%C` or `%S` would need to. */
  lemma {:induction false} ClassifyScanLetter(c: char)
    requires c in ScanLetters
    ensures !Classify(c).DoubleDecimalNotation? && !Classify(c).Unicharacter? && !Classify(c).Unsigned16BitCharacters?
  {
    var i :| 0 <= i < |ScanLetters| && ScanLetters[i] == c;
  }

  /**
    The start positions of the matches a left-to-right, non-overlapping
    search finds from position `from` on.
   */
  function MatchPositions(text: string, from: nat): (r: seq<nat>)
    ensures forall k :: 0 <= k < |r| ==> from <= r[k] && MatchAt(text, r[k])
    ensures forall k :: 0 <= k < |r| - 1 ==> r[k] + 2 <= r[k + 1]
    ensures 2 * |r| <= |text| - from || |r| == 0
    decreases |text| - from
  {
    if from + 1 >= |text| then []
    else if MatchAt(text, from) then [from] + MatchPositions(text, from + 2)
    else MatchPositions(text, from + 1)
  }

  /** Matches never overlap, so the search finds every position where the pattern matches, and nothing else. */
  lemma {:induction false} MatchPositionsComplete(text: string, from: nat, p: nat)
    ensures p in MatchPositions(text, from) <==> from <= p && MatchAt(text, p)
    decreases |text| - from
  {
    if from + 1 < |text| {
      if MatchAt(text, from) {
        MatchPositionsComplete(text, from + 2, p);
        if p == from + 1 {
          PercentIsNoScanLetter();
        }
      } else {
        MatchPositionsComplete(text, from + 1, p);
      }
    }
  }

  /** A match is read as the classification of its letter. */
  lemma {:induction false} FromMatches(text: string, positions: seq<nat>)
    requires forall k :: 0 <= k < |positions| ==> MatchAt(text, positions[k])
    ensures forall k :: 0 <= k < |positions| ==> MatchAt(text, positions[k]) ==>
      From(text[positions[k]..positions[k] + 2]) == Classify(text[positions[k] + 1])
  {
    forall k | 0 <= k < |positions|
      ensures From(text[positions[k]..positions[k] + 2]) == Classify(text[positions[k] + 1])
    {
      var p := positions[k];
      assert text[p..p + 2] == ['%', text[p + 1]];
      FromToken(text[p + 1]);
    }
  }

  /** `FormatSpecifier.in`: each match read by `from`, in text order. */
  function In(text: string): (r: seq<FormatSpecifier>)
    ensures |r| == |MatchPositions(text, 0)|
    ensures forall k :: 0 <= k < |r| ==> r[k] == Classify(text[MatchPositions(text, 0)[k] + 1])
  {
    var positions := MatchPositions(text, 0);
    FromMatches(text, positions);
    seq(|positions|, k requires 0 <= k < |positions| => From(text[positions[k]..positions[k] + 2]))
  }

  /**
    What the scan can and cannot find: at most one specifier per two
    characters, nothing in a text without `%`, no match on `%s` or `%F`
    (so no `DoubleDecimalNotation`), nor the character variants `from` never yields.
   */
  lemma {:induction false} InShape(text: string)
    ensures 2 * |In(text)| <= |text|
    ensures '%' !in text ==> In(text) == []
    ensures forall k :: 0 <= k < |In(text)| ==>
      !In(text)[k].DoubleDecimalNotation? && !In(text)[k].Unicharacter? && !In(text)[k].Unsigned16BitCharacters?
    ensures forall i: nat :: i + 1 < |text| && text[i + 1] in "sF" ==> !MatchAt(text, i)
  {
    forall i: nat | i + 1 < |text| && text[i + 1] in "sF"
      ensures !MatchAt(text, i)
    {
      assert text[i + 1] == 's' || text[i + 1] == 'F';
    }
    var positions := MatchPositions(text, 0);
    if |positions| > 0 {
      assert text[positions[0]] == '%';
    }
    forall k | 0 <= k < |positions|
      ensures !In(text)[k].DoubleDecimalNotation? && !In(text)[k].Unicharacter? && !In(text)[k].Unsigned16BitCharacters?
    {
      ClassifyScanLetter(text[positions[k] + 1]);
    }
  }
}
