/** The splitting of long bot answers into messages, `splitMessage` of `bot/commands/ask.js`. */
module AskSplit {
  import opened Common

  /** `s.lastIndexOf(c, from)` for `from` inside `s`: the greatest index at most `from` holding
      `c`, or -1. */
  function LastIndexOfFrom(s: string, c: char, from: nat): (r: int)
    requires from < |s|
    ensures -1 <= r <= from
    ensures r >= 0 ==> s[r] == c && forall j :: r < j <= from ==> s[j] != c
    ensures r == -1 ==> forall j :: 0 <= j <= from ==> s[j] != c
  {
    LastIndex(s[..from + 1], (x: char) => x == c)
  }

  /** Where a too-long remainder is cut: at its last newline no later than `maxLength` when that
      newline lies at or after half of `maxLength`, otherwise at `maxLength`. */
  function SplitIndex(remaining: string, maxLength: nat): (k: nat)
    requires 1 <= maxLength < |remaining|
    ensures 1 <= k <= maxLength
  {
    var i := LastIndexOfFrom(remaining, '\n', maxLength);
    if i == -1 || 2 * i < maxLength then maxLength else i
  }

  /** The parts cut from `remaining`: a remainder that fits is the last part; otherwise the part
      up to the split index, and the rest with its leading white space removed. */
  function Pieces(remaining: string, maxLength: nat): seq<string>
    requires maxLength >= 1
    decreases |remaining|
  {
    if remaining == [] then []
    else if |remaining| <= maxLength then [remaining]
    else
      var k := SplitIndex(remaining, maxLength);
      [remaining[..k]] + Pieces(TrimStart(remaining[k..]), maxLength)
  }

  /** `splitMessage`: a text that fits is one message, even when empty. */
  function SplitMessage(text: string, maxLength: nat): seq<string>
    requires maxLength >= 1
  {
    if |text| <= maxLength then [text] else Pieces(text, maxLength)
  }

  /** The loop of `splitMessage`. */
  method SplitMessageLoop(text: string, maxLength: nat) returns (parts: seq<string>)
    requires maxLength >= 1
    ensures parts == SplitMessage(text, maxLength)
  {
    if |text| <= maxLength {
      return [text];
    }
    parts := [];
    var remaining := text;
    while |remaining| > 0
      invariant parts + Pieces(remaining, maxLength) == Pieces(text, maxLength)
      decreases |remaining|
    {
      if |remaining| <= maxLength {
        assert Pieces(remaining, maxLength) == [remaining];
        parts := parts + [remaining];
        break;
      }
      var splitIndex := LastIndexOfFrom(remaining, '\n', maxLength);
      if splitIndex == -1 || 2 * splitIndex < maxLength {
        splitIndex := maxLength;
      }
      assert splitIndex == SplitIndex(remaining, maxLength);
      PiecesStep(remaining, maxLength);
      var part := remaining[..splitIndex];
      var rest := TrimStart(remaining[splitIndex..]);
      var later := Pieces(rest, maxLength);
      assert Pieces(remaining, maxLength) == [part] + later;
      AppendAssoc(parts, [part], later);
      parts := parts + [part];
      remaining := rest;
    }
  }

  /** One turn of the loop. */
  lemma PiecesStep(remaining: string, maxLength: nat)
    requires 1 <= maxLength < |remaining|
    ensures Pieces(remaining, maxLength) ==
            [remaining[..SplitIndex(remaining, maxLength)]] +
            Pieces(TrimStart(remaining[SplitIndex(remaining, maxLength)..]), maxLength)
  {
  }

  /** The split index is the greatest newline position in `[maxLength / 2, maxLength]` when
      there is one, and `maxLength` otherwise. */
  lemma SplitIndexSpec(remaining: string, maxLength: nat)
    requires 1 <= maxLength < |remaining|
    ensures var k := SplitIndex(remaining, maxLength);
            (exists j :: maxLength <= 2 * j && j <= maxLength && remaining[j] == '\n') ==>
              remaining[k] == '\n' && maxLength <= 2 * k &&
              forall j :: k < j <= maxLength ==> remaining[j] != '\n'
    ensures var k := SplitIndex(remaining, maxLength);
            (forall j :: maxLength <= 2 * j && j <= maxLength ==> remaining[j] != '\n') ==>
              k == maxLength
  {
    var i := LastIndexOfFrom(remaining, '\n', maxLength);
    if exists j :: maxLength <= 2 * j && j <= maxLength && remaining[j] == '\n' {
      var j :| maxLength <= 2 * j && j <= maxLength && remaining[j] == '\n';
      assert i >= j;
    }
  }

  /** Every part the loop cuts is non-empty and at most `maxLength` long. */
  lemma {:induction false} PiecesBounded(remaining: string, maxLength: nat)
    requires maxLength >= 1
    ensures forall p :: p in Pieces(remaining, maxLength) ==> 1 <= |p| <= maxLength
    decreases |remaining|
  {
    if |remaining| > maxLength {
      var k := SplitIndex(remaining, maxLength);
      PiecesBounded(TrimStart(remaining[k..]), maxLength);
    }
  }

  /** A text that fits is sent as it is; a longer one becomes parts that are each non-empty and
      at most `maxLength` long, the first of which begins the text. */
  lemma SplitMessageShape(text: string, maxLength: nat)
    requires maxLength >= 1
    ensures |text| <= maxLength ==> SplitMessage(text, maxLength) == [text]
    ensures |text| > maxLength ==>
              |SplitMessage(text, maxLength)| >= 1 &&
              (forall p :: p in SplitMessage(text, maxLength) ==> 1 <= |p| <= maxLength) &&
              SplitMessage(text, maxLength)[0] == text[..SplitIndex(text, maxLength)]
  {
    if |text| > maxLength {
      PiecesBounded(text, maxLength);
    }
  }

  lemma FlattenOne(s: string)
    ensures Flatten([s]) == s
  {
    assert [s][1..] == [];
  }

  predicate NotSpace(c: char) { !IsSpace(c) }

  /** The characters that are not white space, in order. */
  function NonSpace(s: string): string
  {
    Filter(s, NotSpace)
  }

  /** Removing leading white space keeps every other character. */
  lemma {:induction false} NonSpaceTrimStart(s: string)
    ensures NonSpace(TrimStart(s)) == NonSpace(s)
  {
    if s != [] && IsSpace(s[0]) {
      NonSpaceTrimStart(s[1..]);
    }
  }

  /** The parts hold every character of the remainder that is not white space, in order. */
  lemma {:induction false} PiecesKeepText(remaining: string, maxLength: nat)
    requires maxLength >= 1
    ensures NonSpace(Flatten(Pieces(remaining, maxLength))) == NonSpace(remaining)
    decreases |remaining|
  {
    if |remaining| > maxLength {
      var k := SplitIndex(remaining, maxLength);
      var part := remaining[..k];
      var rest := TrimStart(remaining[k..]);
      var joined := Flatten(Pieces(rest, maxLength));
      PiecesStep(remaining, maxLength);
      FlattenCons(part, Pieces(rest, maxLength));
      SplitAt(remaining, k);
      calc {
        NonSpace(Flatten(Pieces(remaining, maxLength)));
        NonSpace(part + joined);
        { FilterAppend(part, joined, NotSpace); }
        NonSpace(part) + NonSpace(joined);
        { PiecesKeepText(rest, maxLength); NonSpaceTrimStart(remaining[k..]); }
        NonSpace(part) + NonSpace(remaining[k..]);
        { FilterAppend(part, remaining[k..], NotSpace); }
        NonSpace(remaining);
      }
    } else if remaining != [] {
      FlattenOne(remaining);
    }
  }

  /** Joining the messages keeps every character of the text that is not white space, in
      order: white space is lost only where the text was cut. */
  lemma SplitMessageKeepsText(text: string, maxLength: nat)
    requires maxLength >= 1
    ensures NonSpace(Flatten(SplitMessage(text, maxLength))) == NonSpace(text)
  {
    if |text| > maxLength {
      PiecesKeepText(text, maxLength);
    } else {
      FlattenOne(text);
    }
  }

  /** A text without white space is split without losing anything: the messages join back to
      the text. */
  lemma {:induction false} PiecesJoinBack(remaining: string, maxLength: nat)
    requires maxLength >= 1
    requires forall i :: 0 <= i < |remaining| ==> !IsSpace(remaining[i])
    ensures Flatten(Pieces(remaining, maxLength)) == remaining
    decreases |remaining|
  {
    if |remaining| > maxLength {
      var k := SplitIndex(remaining, maxLength);
      var tail := remaining[k..];
      assert tail == [] || !IsSpace(tail[0]);
      assert TrimStart(tail) == tail;
      PiecesJoinBack(tail, maxLength);
      assert remaining == remaining[..k] + tail;
    } else if remaining != [] {
      FlattenOne(remaining);
    }
  }
}
