/** One conversation's history: an ordered sequence of turns, extended one
    user/assistant pair at a time and trimmed to the ten most recent turns. */
module History {

  /** The history length kept after an update (`conversation.length > 10`). */
  const MaxTurns: nat := 10

  datatype Role = User | Assistant

  datatype Turn = Turn(role: Role, content: string)

  /** One request's contribution: the user's message and the reply given to it. */
  datatype Exchange = Exchange(message: string, reply: string)

  /** The two turns an exchange pushes, user first. */
  function TurnsOf(e: Exchange): seq<Turn> {
    [Turn(User, e.message), Turn(Assistant, e.reply)]
  }

  /** The shape every stored history keeps between requests. */
  predicate Bounded(h: seq<Turn>) {
    |h| % 2 == 0 && |h| <= MaxTurns
  }

  /** The history after one update: push the pair, then drop the two oldest
      turns once if the length went above the bound. */
  function Appended(h: seq<Turn>, e: Exchange): (r: seq<Turn>)
    ensures var full := h + TurnsOf(e); |r| <= |full| && r == full[|full| - |r|..]
    ensures |r| == if |h| + 2 > MaxTurns then |h| else |h| + 2
    ensures r[|r| - 2..] == TurnsOf(e)
    ensures Bounded(h) ==> Bounded(r)
  {
    var full := h + TurnsOf(e);
    if |full| > MaxTurns then full[2..] else full
  }

  /** The turns that survive in front of the new pair are the old history in
      its own order, missing its oldest pair exactly when the bound was hit. */
  lemma AppendedKeepsOrder(h: seq<Turn>, e: Exchange)
    ensures var r := Appended(h, e);
      r[..|r| - 2] == if |h| + 2 > MaxTurns then h[2..] else h
  {
    var r := Appended(h, e);
    var full := h + TurnsOf(e);
    if |h| + 2 > MaxTurns {
      assert r == full[2..];
      assert full[2..][..|r| - 2] == h[2..];
    } else {
      assert full[..|h|] == h;
    }
  }

  /** All turns of a series of exchanges, oldest first. */
  function Transcript(es: seq<Exchange>): seq<Turn> {
    if es == [] then [] else Transcript(es[..|es| - 1]) + TurnsOf(es[|es| - 1])
  }

  /** The history after one update per exchange, in order. */
  function AppendAll(h: seq<Turn>, es: seq<Exchange>): seq<Turn> {
    if es == [] then h else Appended(AppendAll(h, es[..|es| - 1]), es[|es| - 1])
  }

  /** The last `k` elements of `s`, or all of `s` when it is shorter. */
  function LastTurns(s: seq<Turn>, k: nat): (r: seq<Turn>) {
    if |s| <= k then s else s[|s| - k..]
  }

  function Min(a: int, b: int): int { if a <= b then a else b }

  lemma {:induction false} TranscriptLength(es: seq<Exchange>)
    ensures |Transcript(es)| == 2 * |es|
  {
    if es != [] { TranscriptLength(es[..|es| - 1]); }
  }

  /** Any number of updates keep a bounded history bounded. */
  lemma {:induction false} AppendAllBounded(h: seq<Turn>, es: seq<Exchange>)
    requires Bounded(h)
    ensures Bounded(AppendAll(h, es))
  {
    if es != [] { AppendAllBounded(h, es[..|es| - 1]); }
  }

  /** Starting from an empty history, the stored history is exactly the ten most
      recent turns of everything ever exchanged, oldest first. */
  lemma {:induction false} AppendAllFromEmpty(es: seq<Exchange>)
    ensures AppendAll([], es) == LastTurns(Transcript(es), MaxTurns)
  {
    if es != [] {
      var init, e := es[..|es| - 1], es[|es| - 1];
      AppendAllFromEmpty(init);
      TranscriptLength(init);
      var t := Transcript(init);
      var full := t + TurnsOf(e);
      assert Transcript(es) == full;
      if |t| <= MaxTurns - 2 {
        assert AppendAll([], es) == full;
      } else {
        assert |t| >= MaxTurns;
        var l := t[|t| - MaxTurns..];
        assert AppendAll([], es) == (l + TurnsOf(e))[2..];
        assert (l + TurnsOf(e))[2..] == full[|full| - MaxTurns..];
      }
    }
  }

  /** After N updates of an empty history its length is min(2N, 10). */
  lemma AppendAllLength(es: seq<Exchange>)
    ensures |AppendAll([], es)| == Min(2 * |es|, MaxTurns)
  {
    AppendAllFromEmpty(es);
    TranscriptLength(es);
  }

  lemma {:induction false} TranscriptConcat(a: seq<Exchange>, b: seq<Exchange>)
    ensures Transcript(a + b) == Transcript(a) + Transcript(b)
  {
    if b != [] {
      assert (a + b)[..|a + b| - 1] == a + b[..|b| - 1];
      TranscriptConcat(a, b[..|b| - 1]);
    } else {
      assert a + b == a;
    }
  }

  /** Once five or more exchanges were made, the history is exactly the five most
      recent exchanges: of eleven, the first six are gone and the last five kept. */
  lemma AppendAllKeepsLastFive(es: seq<Exchange>)
    requires |es| >= 5
    ensures AppendAll([], es) == Transcript(es[|es| - 5..])
  {
    var k := |es| - 5;
    assert es == es[..k] + es[k..];
    TranscriptConcat(es[..k], es[k..]);
    TranscriptLength(es[..k]);
    TranscriptLength(es[k..]);
    AppendAllFromEmpty(es);
    var a, b := Transcript(es[..k]), Transcript(es[k..]);
    assert Transcript(es) == a + b && |b| == MaxTurns;
    assert (a + b)[|a + b| - MaxTurns..] == b;
  }
}
