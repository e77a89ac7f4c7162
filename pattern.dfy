/** The two anchored regular expressions the forms test input against:
    `^0x[a-fA-F0-9]{40}$` for a hex address and `^\d+$` for a decimal FID.
    Only the constructs they use are modelled: literal characters and a
    character class repeated between a minimum and an optional maximum. */
module Pattern {
  import opened Wrappers
  import Decimal

  /** One element of a pattern: a literal, or a class of inclusive ranges
      repeated `min` to `max` times (no maximum for `+`). */
  datatype Piece = Lit(c: char) | Rep(ranges: seq<(char, char)>, min: nat, max: Option<nat>)

  predicate InRanges(ranges: seq<(char, char)>, c: char) {
    exists i | 0 <= i < |ranges| :: ranges[i].0 <= c <= ranges[i].1
  }

  predicate AllIn(ranges: seq<(char, char)>, s: string) {
    forall i | 0 <= i < |s| :: InRanges(ranges, s[i])
  }

  predicate CountFits(min: nat, max: Option<nat>, k: nat) {
    min <= k && (max.None? || k <= max.value)
  }

  /** `^pieces$`: the whole of `s` is matched by `pieces`, with backtracking
      over every repetition count a piece allows. */
  predicate Matches(pieces: seq<Piece>, s: string)
    decreases |pieces|
  {
    if pieces == [] then s == []
    else match pieces[0]
      case Lit(c) => s != [] && s[0] == c && Matches(pieces[1..], s[1..])
      case Rep(ranges, min, max) =>
        exists k: nat | k <= |s| && CountFits(min, max, k) ::
          AllIn(ranges, s[..k]) && Matches(pieces[1..], s[k..])
  }

  const HexRanges: seq<(char, char)> := [('a', 'f'), ('A', 'F'), ('0', '9')]

  /** /^0x[a-fA-F0-9]{40}$/ */
  const AddressPattern: seq<Piece> := [Lit('0'), Lit('x'), Rep(HexRanges, 40, Some(40))]

  /** /^\d+$/ (`\d` is the ASCII digits only). */
  const DigitsPattern: seq<Piece> := [Rep([('0', '9')], 1, None)]

  predicate IsHexChar(c: char) {
    'a' <= c <= 'f' || 'A' <= c <= 'F' || '0' <= c <= '9'
  }

  /** The hex address shape, said directly. */
  predicate AddressShape(s: string) {
    |s| == 42 && s[0] == '0' && s[1] == 'x' && forall i | 2 <= i < 42 :: IsHexChar(s[i])
  }

  lemma HexRangesMeaning(c: char)
    ensures InRanges(HexRanges, c) <==> IsHexChar(c)
  {
    if IsHexChar(c) {
      if 'a' <= c <= 'f' {
        assert HexRanges[0].0 <= c <= HexRanges[0].1;
      } else if 'A' <= c <= 'F' {
        assert HexRanges[1].0 <= c <= HexRanges[1].1;
      } else {
        assert HexRanges[2].0 <= c <= HexRanges[2].1;
      }
    }
  }

  /** The address pattern accepts exactly the strings of 42 characters made of
      "0x" and forty hex digits of either case. */
  lemma AddressPatternMeaning(s: string)
    ensures Matches(AddressPattern, s) <==> AddressShape(s)
  {
    var tail := AddressPattern[2..];
    assert AddressPattern[1..][1..] == tail;
    assert tail == [Rep(HexRanges, 40, Some(40))] && tail[1..] == [];
    if |s| >= 2 && s[0] == '0' && s[1] == 'x' {
      var u := s[2..];
      assert s[1..][1..] == u;
      assert Matches(tail, u) <==> |u| == 40 && AllIn(HexRanges, u) by {
        if |u| == 40 && AllIn(HexRanges, u) {
          assert u[..40] == u && u[40..] == [];
          assert CountFits(40, Some(40), 40);
        }
      }
      assert AllIn(HexRanges, u) <==> forall i | 2 <= i < |s| :: IsHexChar(s[i]) by {
        forall i | 0 <= i < |u| ensures InRanges(HexRanges, u[i]) <==> IsHexChar(s[i + 2]) {
          HexRangesMeaning(u[i]);
          assert u[i] == s[i + 2];
        }
        forall i | 2 <= i < |s| ensures s[i] == u[i - 2] {
        }
      }
    }
  }

  /** The FID pattern accepts exactly the non-empty strings of ASCII digits. */
  lemma DigitsPatternMeaning(s: string)
    ensures Matches(DigitsPattern, s) <==> s != [] && Decimal.AllDigits(s)
  {
    assert DigitsPattern[1..] == [];
    var r := [('0', '9')];
    assert AllIn(r, s) <==> Decimal.AllDigits(s) by {
      forall i | 0 <= i < |s| ensures InRanges(r, s[i]) <==> Decimal.IsDigit(s[i]) {
        if Decimal.IsDigit(s[i]) {
          assert r[0].0 <= s[i] <= r[0].1;
        }
      }
    }
    if s != [] && Decimal.AllDigits(s) {
      assert s[..|s|] == s && s[|s|..] == [];
      assert CountFits(1, None, |s|);
    }
  }
}
