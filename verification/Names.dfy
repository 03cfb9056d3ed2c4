/** What names and channels look like: words of lower-case letters and digits, joined by single underscores. */
module Names {
  import opened Words
  import opened Ledger

  predicate WordChar(c: Byte) { 97 <= c <= 122 || 48 <= c <= 57 }

  predicate IsWord(w: Bytes) { w != [] && forall i :: 0 <= i < |w| ==> WordChar(w[i]) }

  predicate AreWords(ws: seq<Bytes>) { ws != [] && forall i :: 0 <= i < |ws| ==> IsWord(ws[i]) }

  function Joined(ws: seq<Bytes>): Bytes
    requires ws != []
  {
    if |ws| == 1 then ws[0] else ws[0] + [95] + Joined(ws[1..])
  }

  /** The rule without its bounds on the length. */
  predicate Spelled(n: Bytes) {
    && n != [] && (forall i :: 0 <= i < |n| ==> NameChar(n[i]))
    && n[0] != 95 && n[|n| - 1] != 95
    && forall i :: 0 <= i < |n| - 1 ==> !(n[i] == 95 && n[i + 1] == 95)
  }

  lemma {:induction false} JoinedIsSpelled(ws: seq<Bytes>)
    requires AreWords(ws)
    ensures Spelled(Joined(ws))
  {
    if |ws| > 1 {
      JoinedIsSpelled(ws[1..]);
      WordThenSpelled(ws[0], Joined(ws[1..]));
    }
  }

  lemma WordThenSpelled(w: Bytes, rest: Bytes)
    requires IsWord(w) && Spelled(rest)
    ensures Spelled(w + [95] + rest)
  {
    var n := w + [95] + rest;
    assert n[|n| - 1] == rest[|rest| - 1];
    forall i | 0 <= i < |n|
      ensures NameChar(n[i])
      ensures i > |w| ==> n[i] == rest[i - |w| - 1]
    {}
  }

  lemma {:induction false} SpelledIsJoined(n: Bytes) returns (ws: seq<Bytes>)
    requires Spelled(n)
    ensures AreWords(ws) && Joined(ws) == n
    decreases |n|
  {
    if |n| == 1 {
      ws := [n];
    } else if n[1] == 95 {
      var rest := SpelledIsJoined(n[2..]);
      ws := [n[..1]] + rest;
      assert ws[1..] == rest;
      assert n == n[..1] + [95] + n[2..];
    } else {
      var rest := SpelledIsJoined(n[1..]);
      ws := [n[..1] + rest[0]] + rest[1..];
      FirstLetter(n, rest, ws);
    }
  }

  lemma FirstLetter(n: Bytes, rest: seq<Bytes>, ws: seq<Bytes>)
    requires n != [] && WordChar(n[0]) && AreWords(rest) && Joined(rest) == n[1..]
    requires ws == [n[..1] + rest[0]] + rest[1..]
    ensures AreWords(ws) && Joined(ws) == n
  {
    assert ws[1..] == rest[1..];
    assert n == n[..1] + n[1..];
    if |rest| > 1 {
      assert n[..1] + (rest[0] + [95] + Joined(rest[1..])) == n[..1] + rest[0] + [95] + Joined(rest[1..]);
    }
  }

  /** A name is valid if and only if it has three to twenty characters and is made of words joined by underscores. */
  lemma ValidNameExactly(n: Bytes)
    ensures ValidName(n) <==> 3 <= |n| <= 20 && exists ws :: AreWords(ws) && Joined(ws) == n
  {
    if ValidName(n) {
      var ws := SpelledIsJoined(n);
    }
    if exists ws :: AreWords(ws) && Joined(ws) == n {
      var ws :| AreWords(ws) && Joined(ws) == n;
      JoinedIsSpelled(ws);
    }
  }
}
