/** Breaking a long reply into messages no longer than the transport allows. Text is a string of bytes. */
module Split {

  newtype Byte = x: int | 0 <= x < 256

  type Text = seq<Byte>

  const NEWLINE: Byte := 10

  /** The last newline of a text, or -1. */
  function LastNewline(text: Text): (index: int)
    ensures -1 <= index < |text|
    ensures index >= 0 ==> text[index] == NEWLINE
    ensures forall i :: index < i < |text| ==> text[i] != NEWLINE
  {
    if text == [] then -1
    else if text[|text| - 1] == NEWLINE then |text| - 1
    else LastNewline(text[..|text| - 1])
  }

  function TrimRight(text: Text): Text {
    if text != [] && text[|text| - 1] == NEWLINE then TrimRight(text[..|text| - 1]) else text
  }

  function TrimLeft(text: Text): (rest: Text)
    ensures |rest| <= |text|
  {
    if text != [] && text[0] == NEWLINE then TrimLeft(text[1..]) else text
  }

  /** Where the next part ends: at its last newline unless that is its first byte, or else at the limit. */
  function CutAt(text: Text, limit: nat): (cut: nat)
    requires 1 <= limit < |text|
    ensures 1 <= cut <= limit
  {
    var index := LastNewline(text[..limit]);
    if index <= 0 then limit else index
  }

  /** The parts of a text, cutting while it is too long. */
  function Parts(text: Text, limit: nat): seq<Text>
    requires 1 <= limit
    decreases |text|
  {
    if |text| <= limit then (if text == [] then [] else [text])
    else
      var cut := CutAt(text, limit);
      [TrimRight(text[..cut])] + Parts(TrimLeft(text[cut..]), limit)
  }

  /** A text that fits is one part, even when it is empty. */
  function Pieces(text: Text, limit: nat): seq<Text>
    requires 1 <= limit
  {
    if |text| <= limit then [text] else Parts(text, limit)
  }

  lemma PartsStep(before: seq<Text>, text: Text, limit: nat)
    requires 1 <= limit < |text|
    ensures var cut := CutAt(text, limit);
      before + Parts(text, limit) == before + [TrimRight(text[..cut])] + Parts(TrimLeft(text[cut..]), limit)
  {
  }

  method Split(text: Text, limit: nat) returns (parts: seq<Text>)
    requires 1 <= limit
    ensures parts == Pieces(text, limit)
  {
    if |text| <= limit {
      return [text];
    }
    parts := [];
    var rest := text;
    while |rest| > limit
      invariant parts + Parts(rest, limit) == Parts(text, limit)
      decreases |rest|
    {
      var cut := LastNewline(rest[..limit]);
      if cut <= 0 {
        cut := limit;
      }
      PartsStep(parts, rest, limit);
      parts := parts + [TrimRight(rest[..cut])];
      rest := TrimLeft(rest[cut..]);
    }
    if rest != [] {
      parts := parts + [rest];
    }
  }

  // ----- nothing but newlines is lost -----

  function Joined(parts: seq<Text>): Text {
    if parts == [] then [] else parts[0] + Joined(parts[1..])
  }

  function WithoutNewlines(text: Text): Text {
    if text == [] then []
    else (if text[0] == NEWLINE then [] else [text[0]]) + WithoutNewlines(text[1..])
  }

  lemma {:induction false} WithoutNewlinesAppend(a: Text, b: Text)
    ensures WithoutNewlines(a + b) == WithoutNewlines(a) + WithoutNewlines(b)
  {
    if a == [] {
      assert a + b == b;
    } else {
      assert (a + b)[1..] == a[1..] + b;
      WithoutNewlinesAppend(a[1..], b);
    }
  }

  lemma {:induction false} TrimRightLosesNewlines(text: Text)
    ensures |TrimRight(text)| <= |text|
    ensures WithoutNewlines(TrimRight(text)) == WithoutNewlines(text)
    ensures TrimRight(text) == text <==> text == [] || text[|text| - 1] != NEWLINE
  {
    if text != [] && text[|text| - 1] == NEWLINE {
      var most := text[..|text| - 1];
      TrimRightLosesNewlines(most);
      assert text == most + [NEWLINE];
      WithoutNewlinesAppend(most, [NEWLINE]);
      assert WithoutNewlines([NEWLINE]) == [];
    }
  }

  lemma {:induction false} TrimLeftLosesNewlines(text: Text)
    ensures WithoutNewlines(TrimLeft(text)) == WithoutNewlines(text)
    ensures TrimLeft(text) == text <==> text == [] || text[0] != NEWLINE
  {
    if text != [] && text[0] == NEWLINE {
      TrimLeftLosesNewlines(text[1..]);
    }
  }

  lemma {:induction false} PartsLoseOnlyNewlines(text: Text, limit: nat)
    requires 1 <= limit
    ensures WithoutNewlines(Joined(Parts(text, limit))) == WithoutNewlines(text)
    ensures |Joined(Parts(text, limit))| <= |text|
    ensures forall part <- Parts(text, limit) :: |part| <= limit
    decreases |text|
  {
    if |text| <= limit {
      JoinedOne(text);
    } else {
      var cut := CutAt(text, limit);
      var head, rest := TrimRight(text[..cut]), TrimLeft(text[cut..]);
      PartsLoseOnlyNewlines(rest, limit);
      TrimRightLosesNewlines(text[..cut]);
      TrimLeftLosesNewlines(text[cut..]);
      assert Parts(text, limit)[1..] == Parts(rest, limit);
      WithoutNewlinesAppend(head, Joined(Parts(rest, limit)));
      WithoutNewlinesAppend(text[..cut], text[cut..]);
      assert text == text[..cut] + text[cut..];
    }
  }

  /** Every part fits, and put together they are the text but for some newlines. */
  lemma SplitLosesOnlyNewlines(text: Text, limit: nat)
    requires 1 <= limit
    ensures forall part <- Pieces(text, limit) :: |part| <= limit
    ensures WithoutNewlines(Joined(Pieces(text, limit))) == WithoutNewlines(text)
  {
    PartsLoseOnlyNewlines(text, limit);
    JoinedOne(text);
  }

  // ----- exactly when no newline is lost either -----

  /** Where the last part starts when every cut falls on the limit. */
  function LastStart(length: nat, limit: nat): nat
    requires 1 <= limit
  {
    if length == 0 then 0 else (length - 1) / limit * limit
  }

  /** A newline that a cut removes: anywhere up to the start of the last part, except at the very front. */
  ghost predicate LosesNewline(text: Text, limit: nat)
    requires 1 <= limit
  {
    exists i :: 0 <= i < |text| && i <= LastStart(|text|, limit) && text[i] == NEWLINE && (i > 0 || limit == 1)
  }

  lemma LastStartShifts(length: nat, limit: nat)
    requires 1 <= limit < length
    ensures LastStart(length, limit) == limit + LastStart(length - limit, limit)
    ensures LastStart(length, limit) < length
  {
    var q := (length - 1) / limit;
    assert length - 1 == q * limit + (length - 1) % limit;
    assert (length - limit - 1) / limit == q - 1 by {
      Quotient(length - limit - 1, limit, q - 1, (length - 1) % limit);
    }
    assert (q - 1) * limit + limit == q * limit;
  }

  lemma Quotient(n: nat, d: nat, q: int, r: nat)
    requires 0 < d && r < d && n == q * d + r
    ensures n / d == q
  {
    Uniquely(n / d, n % d, q, r, d);
  }

  lemma Uniquely(p: int, s: nat, q: int, r: nat, d: nat)
    requires s < d && r < d && p * d + s == q * d + r
    ensures p == q
  {
    if p < q {
      Spread(p, q, d);
    } else if q < p {
      Spread(q, p, d);
    }
  }

  lemma Spread(p: int, q: int, d: nat)
    requires p < q
    ensures p * d + d <= q * d
  {
    assert (q - p - 1) * d >= 0;
  }

  /** One cut removes no newline exactly when it falls on the limit between two other bytes. */
  lemma CutLosesNothing(text: Text, limit: nat)
    requires 1 <= limit < |text|
    ensures var cut := CutAt(text, limit);
      (TrimRight(text[..cut]) == text[..cut] && TrimLeft(text[cut..]) == text[cut..])
      <==> !exists i :: 0 <= i <= limit && text[i] == NEWLINE && (i > 0 || limit == 1)
  {
    var cut := CutAt(text, limit);
    TrimRightLosesNewlines(text[..cut]);
    TrimLeftLosesNewlines(text[cut..]);
    var index := LastNewline(text[..limit]);
    if index > 0 {
      assert text[cut..][0] == NEWLINE;
      assert 0 <= index <= limit && text[index] == NEWLINE;
    } else {
      assert forall i :: 0 < i < limit ==> text[..limit][i] == text[i];
      assert text[..cut][cut - 1] == text[limit - 1] && text[cut..][0] == text[limit];
    }
  }

  lemma JoinedOne(text: Text)
    ensures Joined([text]) == text
  {
    assert [text][1..] == [] && Joined([]) == [];
    assert text + [] == text;
  }

  lemma FillsExactly(text: Text, cut: nat, a: Text, b: Text)
    requires cut <= |text| && |a| <= cut && |b| <= |text| - cut
    ensures a + b == text <==> a == text[..cut] && b == text[cut..]
  {
    assert text == text[..cut] + text[cut..];
    if a + b == text {
      assert |a| == cut;
      assert (a + b)[..cut] == a && (a + b)[cut..] == b;
    }
  }

  lemma JoinedStep(text: Text, limit: nat)
    requires 1 <= limit < |text|
    ensures var cut := CutAt(text, limit);
      Joined(Parts(text, limit)) == TrimRight(text[..cut]) + Joined(Parts(TrimLeft(text[cut..]), limit))
  {
    var cut := CutAt(text, limit);
    assert Parts(text, limit)[1..] == Parts(TrimLeft(text[cut..]), limit);
  }

  /** Joining gives the text back exactly when the first cut and the rest both lose nothing. */
  lemma JoinedIsText(text: Text, limit: nat)
    requires 1 <= limit < |text|
    ensures var cut := CutAt(text, limit);
      var rest := TrimLeft(text[cut..]);
      Joined(Parts(text, limit)) == text
      <==> TrimRight(text[..cut]) == text[..cut] && rest == text[cut..] && Joined(Parts(rest, limit)) == rest
  {
    var cut := CutAt(text, limit);
    var rest := TrimLeft(text[cut..]);
    JoinedStep(text, limit);
    PartsLoseOnlyNewlines(rest, limit);
    TrimRightLosesNewlines(text[..cut]);
    FillsExactly(text, cut, TrimRight(text[..cut]), Joined(Parts(rest, limit)));
    TrimLeftIsSuffix(text[cut..]);
  }

  lemma TrimLeftIsSuffix(text: Text)
    ensures |TrimLeft(text)| == |text| ==> TrimLeft(text) == text
  {
  }

  /** The first cut loses a newline, or the rest does. */
  lemma LossSplits(text: Text, limit: nat)
    requires 1 <= limit < |text| && text[limit] != NEWLINE
    requires forall i :: 0 <= i <= limit && (i > 0 || limit == 1) ==> text[i] != NEWLINE
    ensures LosesNewline(text, limit) <==> LosesNewline(text[limit..], limit)
  {
    LastStartShifts(|text|, limit);
    var rest := text[limit..];
    if LosesNewline(text, limit) {
      var i :| 0 <= i < |text| && i <= LastStart(|text|, limit) && text[i] == NEWLINE && (i > 0 || limit == 1);
      assert rest[i - limit] == NEWLINE;
    }
    if LosesNewline(rest, limit) {
      var i :| 0 <= i < |rest| && i <= LastStart(|rest|, limit) && rest[i] == NEWLINE && (i > 0 || limit == 1);
      assert text[i + limit] == NEWLINE;
    }
  }

  lemma {:induction false} PartsEqualText(text: Text, limit: nat)
    requires 1 <= limit
    requires |text| > limit || text == [] || text[0] != NEWLINE
    ensures Joined(Parts(text, limit)) == text <==> !LosesNewline(text, limit)
    decreases |text|
  {
    if |text| <= limit {
      JoinedOne(text);
      FitsInOne(|text|, limit);
    } else {
      JoinedIsText(text, limit);
      CutLosesNothing(text, limit);
      LastStartShifts(|text|, limit);
      if exists i :: 0 <= i <= limit && text[i] == NEWLINE && (i > 0 || limit == 1) {
        var i :| 0 <= i <= limit && text[i] == NEWLINE && (i > 0 || limit == 1);
        assert i <= LastStart(|text|, limit);
      } else {
        LossSplits(text, limit);
        assert CutAt(text, limit) == limit;
        PartsEqualText(text[limit..], limit);
      }
    }
  }

  lemma FitsInOne(length: nat, limit: nat)
    requires 1 <= limit && length <= limit
    ensures LastStart(length, limit) == 0
  {
    if length > 0 {
      Quotient(length - 1, limit, 0, length - 1);
    }
  }

  /** The parts are the text again exactly when it fits in one part or no cut meets a newline. */
  lemma SplitLosesNothingExactlyWhen(text: Text, limit: nat)
    requires 1 <= limit
    ensures Joined(Pieces(text, limit)) == text <==> |text| <= limit || !LosesNewline(text, limit)
  {
    JoinedOne(text);
    if |text| > limit {
      PartsEqualText(text, limit);
    }
  }

  /** So a newline alone does not mean a loss, whether the text fits or not. */
  lemma NewlinesCanSurvive(x: Byte)
    requires x != NEWLINE
    ensures Joined(Pieces([x, NEWLINE], 2)) == [x, NEWLINE]
    ensures Joined(Pieces([x, x, x, NEWLINE], 2)) == [x, x, x, NEWLINE]
    ensures Joined(Pieces([x, NEWLINE, x], 2)) != [x, NEWLINE, x]
  {
    SplitLosesNothingExactlyWhen([x, NEWLINE], 2);
    SplitLosesNothingExactlyWhen([x, x, x, NEWLINE], 2);
    SplitLosesNothingExactlyWhen([x, NEWLINE, x], 2);
    assert [x, NEWLINE, x][1] == NEWLINE;
  }

  // ----- where the cuts fall -----

  /** A cut prefers the end of the last line that ends inside the limit, and otherwise falls on the limit. */
  lemma CutsAtLineEnds(text: Text, limit: nat)
    requires 1 <= limit < |text|
    ensures var cut := CutAt(text, limit);
      if exists i :: 1 <= i < limit && text[i] == NEWLINE then
        cut < limit && text[cut] == NEWLINE && forall k :: cut < k < limit ==> text[k] != NEWLINE
      else cut == limit
    ensures Pieces(text, limit) != [] && Pieces(text, limit)[0] == TrimRight(text[..CutAt(text, limit)])
  {
    var window := text[..limit];
    assert forall i :: 0 <= i < limit ==> window[i] == text[i];
  }

  lemma {:induction false} TrimmedEndsClean(text: Text)
    ensures TrimRight(text) == [] || TrimRight(text)[|TrimRight(text)| - 1] != NEWLINE
    ensures TrimRight(text) <= text
    ensures text != [] && text[0] != NEWLINE ==> TrimRight(text) != []
  {
    if text != [] && text[|text| - 1] == NEWLINE {
      TrimmedEndsClean(text[..|text| - 1]);
    }
  }

  lemma {:induction false} TrimmedStartsClean(text: Text)
    ensures TrimLeft(text) == [] || TrimLeft(text)[0] != NEWLINE
  {
    if text != [] && text[0] == NEWLINE {
      TrimmedStartsClean(text[1..]);
    }
  }

  lemma {:induction false} LaterPartsStartClean(text: Text, limit: nat)
    requires 1 <= limit && (text == [] || text[0] != NEWLINE)
    ensures forall part <- Parts(text, limit) :: part != [] && part[0] != NEWLINE
    decreases |text|
  {
    if |text| > limit {
      var cut := CutAt(text, limit);
      TrimmedEndsClean(text[..cut]);
      TrimmedStartsClean(text[cut..]);
      LaterPartsStartClean(TrimLeft(text[cut..]), limit);
    }
  }

  lemma {:induction false} EarlierPartsEndClean(text: Text, limit: nat, k: nat)
    requires 1 <= limit && k < |Parts(text, limit)| - 1
    ensures var part := Parts(text, limit)[k]; part == [] || part[|part| - 1] != NEWLINE
    decreases |text|
  {
    if |text| > limit {
      var cut := CutAt(text, limit);
      TrimmedEndsClean(text[..cut]);
      if k > 0 {
        assert Parts(text, limit)[k] == Parts(TrimLeft(text[cut..]), limit)[k - 1];
        EarlierPartsEndClean(TrimLeft(text[cut..]), limit, k - 1);
      }
    }
  }

  /** No part after the first is empty or starts with a newline, and none before the last ends with one. */
  lemma PartsAreClean(text: Text, limit: nat, k: nat)
    requires 1 <= limit && k < |Pieces(text, limit)|
    ensures var part := Pieces(text, limit)[k];
      && (k > 0 ==> part != [] && part[0] != NEWLINE)
      && (k < |Pieces(text, limit)| - 1 ==> part == [] || part[|part| - 1] != NEWLINE)
  {
    if |text| > limit {
      var cut := CutAt(text, limit);
      var rest := TrimLeft(text[cut..]);
      TrimmedStartsClean(text[cut..]);
      LaterPartsStartClean(rest, limit);
      if k > 0 {
        assert Parts(text, limit)[k] == Parts(rest, limit)[k - 1];
        assert Parts(rest, limit)[k - 1] in Parts(rest, limit);
      }
      if k < |Pieces(text, limit)| - 1 {
        EarlierPartsEndClean(text, limit, k);
      }
    }
  }
}
