/**
 * The chunker: whitespace normalisation (`clean_text`), fixed-size
 * overlapping windows (`chunk_text_by_length`) and tagging every window with
 * the name of its document (`prepare_chunks`).
 */
module Chunking {
  import opened Strings

  /** One chunk of a document, tagged with the document's name. */
  datatype ChunkRecord = ChunkRecord(doc: string, content: string)

  /** The window size and overlap `prepare_chunks` uses. */
  const ChunkSize: nat := 800
  const Overlap: int := 100

  function Min(a: int, b: int): int
  {
    if a <= b then a else b
  }

  /** The characters Python's `str.isspace` accepts; the `\s` class of a
      `str` regular expression matches exactly these. */
  predicate IsSpace(c: char)
  {
    ('\t' <= c <= '\r') || ('\U{1C}' <= c <= ' ') || c == '\U{85}' || c == '\U{A0}'
    || c == '\U{1680}' || ('\U{2000}' <= c <= '\U{200A}') || c == '\U{2028}'
    || c == '\U{2029}' || c == '\U{202F}' || c == '\U{205F}' || c == '\U{3000}'
  }

  /** A non-empty run of non-whitespace characters. */
  predicate IsWord(w: string)
  {
    |w| > 0 && forall i :: 0 <= i < |w| ==> !IsSpace(w[i])
  }

  predicate AllWords(ws: seq<string>)
  {
    forall k :: 0 <= k < |ws| ==> IsWord(ws[k])
  }

  /** A normalised text: no whitespace at either end, no whitespace other
      than the plain space, and never two whitespace characters in a row. */
  predicate IsClean(s: string)
  {
    (s == [] || (!IsSpace(s[0]) && !IsSpace(s[|s| - 1])))
    && (forall i :: 0 <= i < |s| && IsSpace(s[i]) ==> s[i] == ' ')
    && (forall i :: 0 <= i < |s| - 1 ==> !(IsSpace(s[i]) && IsSpace(s[i + 1])))
  }

  /** `s` without its leading whitespace. */
  function DropSpaces(s: string): (r: string)
    ensures |r| <= |s|
    ensures r == [] || !IsSpace(r[0])
    ensures s != [] && IsSpace(s[0]) ==> |r| < |s|
  {
    if s != [] && IsSpace(s[0]) then DropSpaces(s[1..]) else s
  }

  /** What `DropSpaces` removes is whitespace, and what it keeps is a suffix. */
  lemma {:induction false} DropSpacesSuffix(s: string)
    ensures DropSpaces(s) == s[|s| - |DropSpaces(s)|..]
    ensures forall i :: 0 <= i < |s| - |DropSpaces(s)| ==> IsSpace(s[i])
    decreases |s|
  {
    if s != [] && IsSpace(s[0]) {
      DropSpacesSuffix(s[1..]);
      assert s[1..][|s| - 1 - |DropSpaces(s)|..] == s[|s| - |DropSpaces(s)|..];
      forall i | 1 <= i < |s| - |DropSpaces(s)|
        ensures IsSpace(s[i])
      {
        assert s[i] == s[1..][i - 1];
      }
    }
  }

  /** `s` without its trailing whitespace. */
  function StripRight(s: string): (r: string)
    ensures |r| <= |s|
    ensures r == [] || !IsSpace(r[|r| - 1])
  {
    if s != [] && IsSpace(s[|s| - 1]) then StripRight(s[..|s| - 1]) else s
  }

  /** Python's `s.strip()`. */
  function Strip(s: string): (r: string)
    ensures |r| <= |s|
  {
    StripRight(DropSpaces(s))
  }

  /** The length of the run of non-whitespace characters `s` starts with. */
  function WordLen(s: string): (n: nat)
    ensures n <= |s|
    ensures s != [] && !IsSpace(s[0]) ==> n > 0
  {
    if s != [] && !IsSpace(s[0]) then 1 + WordLen(s[1..]) else 0
  }

  /** `WordLen` stops at the first whitespace character. */
  lemma {:induction false} WordLenSpec(s: string)
    ensures forall i :: 0 <= i < WordLen(s) ==> !IsSpace(s[i])
    ensures WordLen(s) < |s| ==> IsSpace(s[WordLen(s)])
    decreases |s|
  {
    if s != [] && !IsSpace(s[0]) {
      WordLenSpec(s[1..]);
      forall i | 1 <= i < WordLen(s)
        ensures !IsSpace(s[i])
      {
        assert s[i] == s[1..][i - 1];
      }
    }
  }

  /** `re.sub(r'\s+', ' ', s)`: every maximal run of whitespace becomes one space. */
  function Collapse(s: string): string
    decreases |s|
  {
    if s == [] then []
    else if IsSpace(s[0]) then " " + Collapse(DropSpaces(s))
    else s[..WordLen(s)] + Collapse(s[WordLen(s)..])
  }

  /** `clean_text`: collapse whitespace runs, then strip both ends. */
  function CleanText(text: string): string
  {
    Strip(Collapse(text))
  }

  /** Python's `s.split()`: the maximal non-whitespace runs of `s`, in order. */
  function Words(s: string): (ws: seq<string>)
    decreases |s|
  {
    var t := DropSpaces(s);
    if t == [] then [] else [t[..WordLen(t)]] + Words(t[WordLen(t)..])
  }

  /** Every element of `Words(s)` is a word. */
  lemma {:induction false} WordsAreWords(s: string)
    ensures AllWords(Words(s))
    decreases |s|
  {
    var t := DropSpaces(s);
    if t != [] {
      var n := WordLen(t);
      WordLenSpec(t);
      WordsAreWords(t[n..]);
      AllWordsCons(t[..n], Words(t[n..]));
    }
  }

  lemma {:induction false} AllWordsCons(w: string, ws: seq<string>)
    requires IsWord(w) && AllWords(ws)
    ensures AllWords([w] + ws)
  {
    assert forall k :: 0 < k <= |ws| ==> ([w] + ws)[k] == ws[k - 1];
  }

  function TrailingSpace(s: string): string
  {
    if s != [] && IsSpace(s[|s| - 1]) then " " else []
  }

  lemma {:induction false} DropSpacesNoLead(s: string)
    requires s == [] || !IsSpace(s[0])
    ensures DropSpaces(s) == s
  {
  }

  lemma {:induction false} DropSpacesCons(s: string)
    ensures DropSpaces(" " + s) == DropSpaces(s)
  {
    assert (" " + s)[1..] == s;
  }

  lemma {:induction false} WordsDrop(s: string)
    ensures Words(DropSpaces(s)) == Words(s)
  {
    DropSpacesNoLead(DropSpaces(s));
  }

  lemma {:induction false} WordsCons(s: string)
    ensures Words(" " + s) == Words(s)
  {
    DropSpacesCons(s);
  }

  lemma {:induction false} AllSpaceIff(s: string)
    ensures DropSpaces(s) == [] <==> forall i :: 0 <= i < |s| ==> IsSpace(s[i])
  {
    var r := DropSpaces(s);
    DropSpacesSuffix(s);
    if r != [] {
      assert r[0] == s[|s| - |r|];
    }
  }

  lemma {:induction false} WordLenOfWord(w: string, rest: string)
    requires forall i :: 0 <= i < |w| ==> !IsSpace(w[i])
    requires rest == [] || IsSpace(rest[0])
    ensures WordLen(w + rest) == |w|
    decreases |w|
  {
    if w == [] {
      assert w + rest == rest;
    } else {
      assert (w + rest)[1..] == w[1..] + rest;
      WordLenOfWord(w[1..], rest);
    }
  }

  lemma {:induction false} StripRightTail(j: string, t: string)
    requires j == [] || !IsSpace(j[|j| - 1])
    requires t == [] || t == " "
    ensures StripRight(j + t) == j
  {
    if t == " " {
      assert (j + t)[..|j|] == j;
    } else {
      assert j + t == j;
    }
  }

  /** Joined words are a normalised text, non-empty when there is a word. */
  lemma {:induction false} JoinedWordsClean(ws: seq<string>)
    requires AllWords(ws)
    ensures IsClean(JoinWith(" ", ws))
    ensures ws != [] ==> JoinWith(" ", ws) != []
    decreases |ws|
  {
    if |ws| > 1 {
      var w, u := ws[0], JoinWith(" ", ws[1..]);
      JoinedWordsClean(ws[1..]);
      var j := JoinWith(" ", ws);
      assert j == w + " " + u;
      assert forall i :: 0 <= i < |w| ==> j[i] == w[i];
      assert j[|w|] == ' ';
      assert forall i :: |w| < i < |j| ==> j[i] == u[i - |w| - 1];
      assert j[|j| - 1] == u[|u| - 1];
      forall i | 0 <= i < |j| - 1
        ensures !(IsSpace(j[i]) && IsSpace(j[i + 1]))
      {
        if i < |w| - 1 {
        } else if i == |w| - 1 {
        } else if i == |w| {
          assert j[i + 1] == u[0];
        } else {
          assert j[i] == u[i - |w| - 1] && j[i + 1] == u[i + 1 - |w| - 1];
        }
      }
    }
  }

  lemma {:induction false} WordsOfWord(w: string)
    requires IsWord(w)
    ensures Words(w) == [w]
  {
    DropSpacesNoLead(w);
    WordLenOfWord(w, []);
    assert w + [] == w;
    assert w[..|w|] == w && w[|w|..] == [];
  }

  lemma {:induction false} WordsOfWordThenSpace(w: string, u: string)
    requires IsWord(w)
    ensures Words(w + (" " + u)) == [w] + Words(u)
  {
    var j := w + (" " + u);
    assert j[0] == w[0];
    DropSpacesNoLead(j);
    WordLenOfWord(w, " " + u);
    assert Words(j) == [j[..|w|]] + Words(j[|w|..]);
    assert j[..|w|] == w && j[|w|..] == " " + u;
    WordsCons(u);
  }

  lemma {:induction false} AllWordsTail(ws: seq<string>)
    requires AllWords(ws) && ws != []
    ensures AllWords(ws[1..])
  {
    assert forall k :: 0 <= k < |ws| - 1 ==> ws[1..][k] == ws[k + 1];
  }

  lemma {:induction false} WordsOfJoinedWordsStep(ws: seq<string>)
    requires AllWords(ws) && |ws| > 1
    requires Words(JoinWith(" ", ws[1..])) == ws[1..]
    ensures Words(JoinWith(" ", ws)) == ws
  {
    var w, t := ws[0], ws[1..];
    var u := JoinWith(" ", t);
    calc {
      Words(JoinWith(" ", ws));
    == { assert JoinWith(" ", ws) == w + (" " + u); }
      Words(w + (" " + u));
    == { WordsOfWordThenSpace(w, u); }
      [w] + Words(u);
    == { assert [w] + t == ws; }
      ws;
    }
  }

  /** Splitting joined words gives the words back. */
  lemma {:induction false} WordsOfJoinedWords(ws: seq<string>)
    requires AllWords(ws)
    ensures Words(JoinWith(" ", ws)) == ws
    decreases |ws|
  {
    if ws == [] {
      assert Words([]) == [];
    } else if |ws| == 1 {
      WordsOfWord(ws[0]);
    } else {
      AllWordsTail(ws);
      WordsOfJoinedWords(ws[1..]);
      WordsOfJoinedWordsStep(ws);
    }
  }

  /** One step of `Collapse` and `Words` over a leading word. */
  lemma {:induction false} CollapseWordStep(s: string)
    requires s != [] && !IsSpace(s[0])
    ensures Collapse(s) == s[..WordLen(s)] + Collapse(s[WordLen(s)..])
    ensures Words(s) == [s[..WordLen(s)]] + Words(s[WordLen(s)..])
  {
    DropSpacesNoLead(s);
  }

  /** One step of `Collapse` and `Words` over a leading whitespace run. */
  lemma {:induction false} CollapseSpaceStep(u: string)
    requires u != [] && IsSpace(u[0])
    ensures Collapse(u) == " " + Collapse(DropSpaces(u))
    ensures Words(u) == Words(DropSpaces(u))
  {
    WordsDrop(u);
  }

  lemma {:induction false} JoinWithCons(sep: string, w: string, ws: seq<string>)
    requires ws != []
    ensures JoinWith(sep, [w] + ws) == w + sep + JoinWith(sep, ws)
  {
    assert ([w] + ws)[1..] == ws;
  }

  lemma {:induction false} WordsNonEmpty(d: string)
    requires d != [] && !IsSpace(d[0])
    ensures Words(d) != []
  {
    DropSpacesNoLead(d);
  }

  /** The tail of `s` after its leading word. */
  function AfterWord(s: string): string
  {
    s[WordLen(s)..]
  }

  lemma {:induction false} CollapseLastWord(s: string)
    requires s != [] && !IsSpace(s[0]) && AfterWord(s) == []
    ensures Collapse(s) == JoinWith(" ", Words(s)) + TrailingSpace(s)
  {
    var n := WordLen(s);
    var w := s[..n];
    CollapseWordStep(s);
    WordLenSpec(s);
    assert s[|s| - 1] == w[n - 1];
    assert TrailingSpace(s) == [];
    assert Words(s) == [w];
    assert Collapse(s) == w + [] == w;
  }

  lemma {:induction false} CollapseWordThenSpaces(s: string)
    requires s != [] && !IsSpace(s[0]) && AfterWord(s) != [] && DropSpaces(AfterWord(s)) == []
    ensures Collapse(s) == JoinWith(" ", Words(s)) + TrailingSpace(s)
  {
    var n := WordLen(s);
    var w, u := s[..n], s[n..];
    CollapseWordStep(s);
    DropSpacesSuffix(u);
    CollapseSpaceStep(u);
    assert s[|s| - 1] == u[|u| - 1];
    assert IsSpace(u[|u| - 1]);
    assert TrailingSpace(s) == " ";
    assert Words(s) == [w];
    assert Collapse(s) == w + (" " + []) == w + " ";
  }

  lemma {:induction false} CollapseWordThenMore(s: string)
    requires s != [] && !IsSpace(s[0]) && AfterWord(s) != []
    requires DropSpaces(AfterWord(s)) != []
    requires var d := DropSpaces(AfterWord(s));
      Collapse(d) == JoinWith(" ", Words(d)) + TrailingSpace(d)
    ensures Collapse(s) == JoinWith(" ", Words(s)) + TrailingSpace(s)
  {
    var n := WordLen(s);
    var w, u := s[..n], s[n..];
    var d := DropSpaces(u);
    CollapseWordStep(s);
    WordLenSpec(s);
    CollapseSpaceStep(u);
    WordsNonEmpty(d);
    JoinWithCons(" ", w, Words(d));
    assert TrailingSpace(d) == TrailingSpace(s) by {
      DropSpacesSuffix(u);
      assert d[|d| - 1] == u[|u| - 1] == s[|s| - 1];
    }
    ConcatGlue(Collapse(s), Collapse(u), Collapse(d), w, JoinWith(" ", Words(d)),
      TrailingSpace(s), JoinWith(" ", Words(s)));
  }

  lemma ConcatGlue(cs: string, cu: string, cd: string, w: string, j: string, t: string, js: string)
    requires cs == w + cu && cu == " " + cd && cd == j + t && js == w + " " + j
    ensures cs == js + t
  {
  }

  /** Collapsing a text that starts with a word gives its words joined by
      single spaces, plus one space if the text ended in whitespace. */
  lemma {:induction false} CollapseNoLead(s: string)
    requires s == [] || !IsSpace(s[0])
    ensures Collapse(s) == JoinWith(" ", Words(s)) + TrailingSpace(s)
    decreases |s|
  {
    if s != [] {
      var u := AfterWord(s);
      if u == [] {
        CollapseLastWord(s);
      } else if DropSpaces(u) == [] {
        CollapseWordThenSpaces(s);
      } else {
        CollapseNoLead(DropSpaces(u));
        CollapseWordThenMore(s);
      }
    }
  }

  /** `clean_text(t)` is `" ".join(t.split())`: every whitespace run becomes
      exactly one space and the ends are trimmed. */
  lemma {:induction false} CleanTextIsJoinedWords(text: string)
    ensures CleanText(text) == JoinWith(" ", Words(text))
  {
    var d := DropSpaces(text);
    WordsDrop(text);
    CollapseNoLead(d);
    var ws := Words(d);
    WordsAreWords(d);
    JoinedWordsClean(ws);
    var j := JoinWith(" ", ws);
    if text != [] && IsSpace(text[0]) {
      assert Collapse(text) == " " + Collapse(d);
      DropSpacesCons(Collapse(d));
    } else {
      DropSpacesNoLead(text);
    }
    assert DropSpaces(Collapse(text)) == DropSpaces(Collapse(d));
    if d != [] {
      WordsNonEmpty(d);
    }
    if ws == [] {
      assert Collapse(d) == [];
    } else {
      DropSpacesNoLead(j + TrailingSpace(d));
      StripRightTail(j, TrailingSpace(d));
    }
  }

  /** The output of `clean_text` is normalised. */
  lemma {:induction false} CleanTextIsClean(text: string)
    ensures IsClean(CleanText(text))
  {
    CleanTextIsJoinedWords(text);
    WordsAreWords(text);
    JoinedWordsClean(Words(text));
  }

  /** `clean_text` is idempotent. */
  lemma {:induction false} CleanTextIdempotent(text: string)
    ensures CleanText(CleanText(text)) == CleanText(text)
  {
    CleanTextIsJoinedWords(text);
    CleanTextIsJoinedWords(CleanText(text));
    WordsAreWords(text);
    WordsOfJoinedWords(Words(text));
  }

  /** `clean_text` gives the empty string exactly for all-whitespace input. */
  lemma {:induction false} CleanTextEmptyIff(text: string)
    ensures CleanText(text) == [] <==> forall i :: 0 <= i < |text| ==> IsSpace(text[i])
  {
    CleanTextIsJoinedWords(text);
    WordsAreWords(text);
    JoinedWordsClean(Words(text));
    AllSpaceIff(text);
    DropSpacesNoLead(DropSpaces(text));
  }

  // ---------------------------------------------------------------------
  // chunk_text_by_length

  /** The raw window `text[start:min(start + size, n)]`, before stripping. */
  function Window(text: string, size: nat, start: nat): (w: string)
    requires start <= |text|
    ensures |w| <= size
  {
    text[start..Min(start + size, |text|)]
  }

  /** The raw windows the loop of `chunk_text_by_length` visits from
      `start` on, before stripping. */
  function WindowsFrom(text: string, size: nat, step: nat, start: nat): (ws: seq<string>)
    requires step > 0
    ensures forall k :: 0 <= k < |ws| ==> |ws[k]| <= size
    decreases |text| - start
  {
    if start >= |text| then []
    else [Window(text, size, start)] + WindowsFrom(text, size, step, start + step)
  }

  /** Python's `[c.strip() for c in ws]`. */
  function StripAll(ws: seq<string>): (cs: seq<string>)
    ensures |cs| == |ws|
    ensures forall k :: 0 <= k < |ws| ==> cs[k] == Strip(ws[k])
  {
    seq(|ws|, k requires 0 <= k < |ws| => Strip(ws[k]))
  }

  /** The step the loop advances `start` by. */
  function Step(size: nat, overlap: int): int
  {
    size - overlap
  }

  /** What `chunk_text_by_length(text, size, overlap)` returns.  The loop
      only ends on a non-empty text when the step is positive, hence the
      precondition; an empty text gives no chunk whatever the step. */
  function Chunks(text: string, size: nat, overlap: int): seq<string>
    requires text != [] ==> overlap < size
  {
    if text == [] then [] else StripAll(WindowsFrom(text, size, Step(size, overlap), 0))
  }

  lemma {:induction false} StripAllCons(w: string, ws: seq<string>)
    ensures StripAll([w] + ws) == [Strip(w)] + StripAll(ws)
  {
    assert StripAll([w] + ws) == [Strip(w)] + StripAll(ws);
  }

  /** `chunk_text_by_length`: the `while` loop advancing `start` by
      `chunk_size - overlap` and appending each stripped window. */
  method ChunkTextByLength(text: string, chunkSize: nat, overlap: int) returns (chunks: seq<string>)
    requires text != [] ==> overlap < chunkSize
    ensures chunks == Chunks(text, chunkSize, overlap)
  {
    chunks := [];
    var start: nat := 0;
    var textLength := |text|;
    if textLength == 0 {
      return;
    }
    var step: nat := chunkSize - overlap;
    ghost var all := StripAll(WindowsFrom(text, chunkSize, step, 0));
    assert all == Chunks(text, chunkSize, overlap);
    while start < textLength
      invariant chunks + StripAll(WindowsFrom(text, chunkSize, step, start)) == all
      decreases textLength - start
    {
      var end := Min(start + chunkSize, textLength);
      var chunk := text[start..end];
      assert chunk == Window(text, chunkSize, start);
      ghost var rest := WindowsFrom(text, chunkSize, step, start + step);
      assert WindowsFrom(text, chunkSize, step, start) == [chunk] + rest;
      StripAllCons(chunk, rest);
      chunks := chunks + [Strip(chunk)];
      start := start + step;
    }
  }

  /** Euclidean division is determined by quotient and remainder. */
  lemma {:induction false} DivUnique(x: int, d: int, q: int, r: int)
    requires d > 0 && 0 <= r < d && x == q * d + r
    ensures x / d == q
  {
    var a := x / d - q;
    assert a * d == r - x % d;
  }

  /** `(x + d) / d` is one more than `x / d`. */
  lemma {:induction false} DivStep(x: int, d: int)
    requires d > 0
    ensures (x + d) / d == x / d + 1
  {
    DivUnique(x + d, d, x / d + 1, x % d);
  }

  /** The loop visits `ceil((n - start) / step)` windows from `start` on. */
  lemma {:induction false} WindowsFromCount(text: string, size: nat, step: nat, start: nat)
    requires step > 0
    ensures |WindowsFrom(text, size, step, start)| ==
            if start >= |text| then 0 else (|text| - start + step - 1) / step
    decreases |text| - start
  {
    if start < |text| {
      WindowsFromCount(text, size, step, start + step);
      if start + step >= |text| {
        assert step <= |text| - start + step - 1 < 2 * step;
        DivStep(|text| - start - 1, step);
      } else {
        DivStep(|text| - start - 1, step);
      }
    }
  }

  /** Window `k` from `start` begins at `start + k * step`. */
  lemma {:induction false} WindowsFromAt(text: string, size: nat, step: nat, start: nat, k: nat)
    requires step > 0
    requires k < |WindowsFrom(text, size, step, start)|
    ensures start + k * step < |text|
    ensures WindowsFrom(text, size, step, start)[k] == Window(text, size, start + k * step)
    decreases k
  {
    if k > 0 {
      WindowsFromAt(text, size, step, start + step, k - 1);
      assert start + step + (k - 1) * step == start + k * step;
    }
  }

  /** For a non-empty text of length `n` there are `ceil(n / step)` chunks,
      and none for the empty text. */
  lemma {:induction false} ChunkCount(text: string, size: nat, overlap: int)
    requires text != [] ==> overlap < size
    ensures text == [] ==> Chunks(text, size, overlap) == []
    ensures text != [] ==>
              |Chunks(text, size, overlap)| == (|text| + Step(size, overlap) - 1) / Step(size, overlap)
  {
    if text != [] {
      WindowsFromCount(text, size, Step(size, overlap), 0);
    }
  }

  /** Chunk `i` is the stripped window `text[i*step : min(i*step + size, n)]`,
      so no chunk is longer than `size`. */
  lemma {:induction false} ChunkAt(text: string, size: nat, overlap: int, i: nat)
    requires text != [] ==> overlap < size
    requires i < |Chunks(text, size, overlap)|
    ensures i * Step(size, overlap) < |text|
    ensures Chunks(text, size, overlap)[i] ==
            Strip(Window(text, size, i * Step(size, overlap)))
    ensures |Chunks(text, size, overlap)[i]| <= size
  {
    ChunkIsStrippedWindow(text, size, overlap, i);
    FirstWindowsAt(text, size, Step(size, overlap), i);
  }

  /** Chunk `i` is window `i` stripped. */
  lemma {:induction false} ChunkIsStrippedWindow(text: string, size: nat, overlap: int, i: nat)
    requires text != [] ==> overlap < size
    requires i < |Chunks(text, size, overlap)|
    ensures text != [] && overlap < size
    ensures i < |WindowsFrom(text, size, Step(size, overlap), 0)|
    ensures Chunks(text, size, overlap)[i] == Strip(WindowsFrom(text, size, Step(size, overlap), 0)[i])
  {
  }

  /** Window `k` of the loop, which starts at 0, begins at `k * step`. */
  lemma {:induction false} FirstWindowsAt(text: string, size: nat, step: nat, k: nat)
    requires step > 0
    requires k < |WindowsFrom(text, size, step, 0)|
    ensures k * step < |text|
    ensures WindowsFrom(text, size, step, 0)[k] == Window(text, size, k * step)
  {
    WindowsFromAt(text, size, step, 0, k);
    assert 0 + k * step == k * step;
  }

  /** The first `min(step, len)` characters of each window, concatenated:
      the part of the text each window contributes before the next one starts. */
  function Covered(ws: seq<string>, step: nat): string
  {
    if ws == [] then [] else ws[0][..Min(step, |ws[0]|)] + Covered(ws[1..], step)
  }

  /** With a non-negative overlap the windows from `start` on leave no gap:
      their leading parts put back together give `text[start..]`. */
  lemma {:induction false} WindowsFromCover(text: string, size: nat, step: nat, start: nat)
    requires 0 < step <= size
    requires start <= |text|
    ensures Covered(WindowsFrom(text, size, step, start), step) == text[start..]
    decreases |text| - start
  {
    var ws := WindowsFrom(text, size, step, start);
    if start < |text| {
      var w := Window(text, size, start);
      assert ws[0] == w && ws[1..] == WindowsFrom(text, size, step, start + step);
      if start + step >= |text| {
        assert WindowsFrom(text, size, step, start + step) == [];
        assert w[..Min(step, |w|)] == text[start..];
      } else {
        WindowsFromCover(text, size, step, start + step);
        assert w[..Min(step, |w|)] == text[start..start + step];
        assert text[start..] == text[start..start + step] + text[start + step..];
      }
    }
  }

  /** Coverage: with `0 <= overlap < size`, the windows of
      `chunk_text_by_length`, before stripping, reconstruct the text. */
  lemma {:induction false} ChunksCoverText(text: string, size: nat, overlap: int)
    requires 0 <= overlap < size
    ensures Covered(WindowsFrom(text, size, Step(size, overlap), 0), Step(size, overlap)) == text
  {
    WindowsFromCover(text, size, Step(size, overlap), 0);
  }

  /** Whether the guard `start < text_length` of `chunk_text_by_length`
      fails within `fuel` more iterations, `start` advancing by `step`. */
  function GuardExits(n: nat, step: int, start: int, fuel: nat): bool
    decreases fuel
  {
    start >= n || (fuel > 0 && GuardExits(n, step, start + step, fuel - 1))
  }

  /** From a start inside the text, a non-positive step never makes the
      guard fail. */
  lemma {:induction false} NeverExits(n: nat, step: int, start: int, fuel: nat)
    requires step <= 0 && start < n
    ensures !GuardExits(n, step, start, fuel)
    decreases fuel
  {
    if fuel > 0 {
      NeverExits(n, step, start + step, fuel - 1);
    }
  }

  /** With a positive step the guard fails after exactly as many
      iterations as there are windows. */
  lemma {:induction false} ExitsAfterWindows(text: string, size: nat, step: nat, start: nat, fuel: nat)
    requires step > 0
    ensures GuardExits(|text|, step, start, fuel) <==> fuel >= |WindowsFrom(text, size, step, start)|
    decreases |text| - start
  {
    if start < |text| && fuel > 0 {
      ExitsAfterWindows(text, size, step, start + step, fuel - 1);
    }
  }

  /** Termination of `chunk_text_by_length`'s loop, which starts at 0: on
      empty text, or with `overlap < chunk_size`, it leaves the loop after
      exactly one iteration per chunk; on non-empty text with
      `overlap >= chunk_size` it never leaves it. */
  lemma {:induction false} ChunkLoopExits(text: string, size: nat, overlap: int, fuel: nat)
    ensures text != [] && overlap >= size ==> !GuardExits(|text|, Step(size, overlap), 0, fuel)
    ensures text == [] || overlap < size ==>
              (GuardExits(|text|, Step(size, overlap), 0, fuel) <==> fuel >= |Chunks(text, size, overlap)|)
  {
    if text != [] {
      if overlap >= size {
        NeverExits(|text|, Step(size, overlap), 0, fuel);
      } else {
        ExitsAfterWindows(text, size, Step(size, overlap), 0, fuel);
      }
    }
  }

  // ---------------------------------------------------------------------
  // prepare_chunks

  /** The chunks `prepare_chunks` makes of one document's text. */
  function DocumentChunks(text: string): seq<string>
  {
    Chunks(CleanText(text), ChunkSize, Overlap)
  }

  /** Every chunk of `cs` tagged with the document name `name`. */
  function Tag(name: string, cs: seq<string>): (rs: seq<ChunkRecord>)
    ensures |rs| == |cs|
    ensures forall k :: 0 <= k < |cs| ==> rs[k] == ChunkRecord(name, cs[k])
  {
    seq(|cs|, k requires 0 <= k < |cs| => ChunkRecord(name, cs[k]))
  }

  /** The tagged chunk list of every document, in iteration order. */
  function TaggedDocuments(docs: seq<(string, string)>): (ts: seq<seq<ChunkRecord>>)
    ensures |ts| == |docs|
  {
    seq(|docs|, k requires 0 <= k < |docs| => Tag(docs[k].0, DocumentChunks(docs[k].1)))
  }

  /** The lists of `parts` one after another. */
  function Flatten(parts: seq<seq<ChunkRecord>>): seq<ChunkRecord>
  {
    if parts == [] then [] else Flatten(parts[..|parts| - 1]) + parts[|parts| - 1]
  }

  /** What `prepare_chunks` returns for a dictionary whose items, in
      iteration order, are `docs` (file name, text). */
  function Prepared(docs: seq<(string, string)>): seq<ChunkRecord>
  {
    Flatten(TaggedDocuments(docs))
  }

  lemma TagAppend(name: string, cs: seq<string>, c: string)
    ensures Tag(name, cs + [c]) == Tag(name, cs) + [ChunkRecord(name, c)]
  {
    assert Tag(name, cs + [c]) == Tag(name, cs) + [ChunkRecord(name, c)];
  }

  lemma {:induction false} FlattenAppend(p: seq<seq<ChunkRecord>>, q: seq<seq<ChunkRecord>>)
    ensures Flatten(p + q) == Flatten(p) + Flatten(q)
    decreases |q|
  {
    if q == [] {
      assert p + q == p;
    } else {
      var pq, last := p + q, q[|q| - 1];
      assert pq[..|pq| - 1] == p + q[..|q| - 1] && pq[|pq| - 1] == last;
      assert Flatten(pq) == Flatten(p + q[..|q| - 1]) + last;
      assert Flatten(q) == Flatten(q[..|q| - 1]) + last;
      FlattenAppend(p, q[..|q| - 1]);
    }
  }

  lemma {:induction false} TaggedDocumentsAppend(a: seq<(string, string)>, b: seq<(string, string)>)
    ensures TaggedDocuments(a + b) == TaggedDocuments(a) + TaggedDocuments(b)
  {
    assert TaggedDocuments(a + b) == TaggedDocuments(a) + TaggedDocuments(b);
  }

  /** `prepare_chunks` over two dictionaries' items in a row is the
      concatenation of the two results: documents are processed one after
      another and never reordered. */
  lemma {:induction false} PreparedAppend(a: seq<(string, string)>, b: seq<(string, string)>)
    ensures Prepared(a + b) == Prepared(a) + Prepared(b)
  {
    TaggedDocumentsAppend(a, b);
    FlattenAppend(TaggedDocuments(a), TaggedDocuments(b));
  }

  /** One document contributes its chunks, in order, each tagged with its name. */
  lemma {:induction false} PreparedOne(name: string, text: string)
    ensures Prepared([(name, text)]) == Tag(name, DocumentChunks(text))
  {
    var ts := TaggedDocuments([(name, text)]);
    assert ts == [Tag(name, DocumentChunks(text))];
    assert ts[..0] == [];
    assert Flatten(ts) == Flatten(ts[..0]) + ts[0];
  }

  /** Appending a document appends its tagged chunks. */
  lemma {:induction false} PreparedSnoc(docs: seq<(string, string)>, d: (string, string))
    ensures Prepared(docs + [d]) == Prepared(docs) + Tag(d.0, DocumentChunks(d.1))
  {
    PreparedAppend(docs, [d]);
    PreparedOne(d.0, d.1);
  }

  /** `prepare_chunks`: clean each document, chunk it, and append one
      record per chunk, document by document. */
  method PrepareChunks(docs: seq<(string, string)>) returns (allChunks: seq<ChunkRecord>)
    ensures allChunks == Prepared(docs)
  {
    allChunks := [];
    for i := 0 to |docs|
      invariant allChunks == Prepared(docs[..i])
    {
      var filename, text := docs[i].0, docs[i].1;
      var cleaned := CleanText(text);
      var chunks := ChunkTextByLength(cleaned, ChunkSize, Overlap);
      ghost var before := allChunks;
      allChunks := AppendTagged(allChunks, filename, chunks);
      PreparedStep(docs, i, before, chunks);
    }
    assert docs[..|docs|] == docs;
  }

  /** The inner loop of `prepare_chunks`: append one record per chunk, in
      order, each naming the document. */
  method AppendTagged(acc: seq<ChunkRecord>, name: string, chunks: seq<string>) returns (r: seq<ChunkRecord>)
    ensures r == acc + Tag(name, chunks)
  {
    r := acc;
    for j := 0 to |chunks|
      invariant r == acc + Tag(name, chunks[..j])
    {
      TagAppend(name, chunks[..j], chunks[j]);
      assert chunks[..j + 1] == chunks[..j] + [chunks[j]];
      r := r + [ChunkRecord(name, chunks[j])];
    }
    assert chunks[..|chunks|] == chunks;
  }

  /** One pass of the outer loop of `prepare_chunks`: the records so far
      plus the new document's tagged chunks are the records of one more
      document. */
  lemma {:induction false} PreparedStep(docs: seq<(string, string)>, i: nat, before: seq<ChunkRecord>, chunks: seq<string>)
    requires i < |docs|
    requires before == Prepared(docs[..i])
    requires chunks == DocumentChunks(docs[i].1)
    ensures before + Tag(docs[i].0, chunks) == Prepared(docs[..i + 1])
  {
    assert docs[..i + 1] == docs[..i] + [docs[i]];
    PreparedSnoc(docs[..i], docs[i]);
  }

  /** Every record `prepare_chunks` emits names one of the documents and holds
      one of that document's chunks. */
  lemma {:induction false} PreparedProvenance(docs: seq<(string, string)>, r: ChunkRecord)
    requires r in Prepared(docs)
    ensures exists k :: 0 <= k < |docs| && r.doc == docs[k].0 && r.content in DocumentChunks(docs[k].1)
    decreases |docs|
  {
    var init, last := docs[..|docs| - 1], docs[|docs| - 1];
    assert docs == init + [last];
    PreparedSnoc(init, last);
    if r in Prepared(init) {
      PreparedProvenance(init, r);
      var k :| 0 <= k < |init| && r.doc == init[k].0 && r.content in DocumentChunks(init[k].1);
      assert docs[k] == init[k];
    } else {
      var t := Tag(last.0, DocumentChunks(last.1));
      assert r in t;
      var j :| 0 <= j < |t| && t[j] == r;
      assert r.content == DocumentChunks(last.1)[j];
    }
  }

  /** A document has no chunks exactly when its text is empty or all
      whitespace. */
  lemma {:induction false} DocumentChunksEmptyIff(text: string)
    ensures DocumentChunks(text) == [] <==> forall i :: 0 <= i < |text| ==> IsSpace(text[i])
  {
    CleanTextEmptyIff(text);
    var c := CleanText(text);
    if c != [] {
      ChunkCount(c, ChunkSize, Overlap);
      assert (|c| + 700 - 1) / 700 >= 1;
    }
  }

  /** An empty or all-whitespace document contributes no record. */
  lemma {:induction false} BlankDocumentContributesNothing(docs: seq<(string, string)>, name: string, text: string)
    requires forall i :: 0 <= i < |text| ==> IsSpace(text[i])
    ensures Prepared(docs + [(name, text)]) == Prepared(docs)
  {
    DocumentChunksEmptyIff(text);
    PreparedAppend(docs, [(name, text)]);
    PreparedOne(name, text);
  }

  /** A document whose cleaned text is non-empty and no longer than the
      step (700 characters) gives exactly one chunk: the cleaned text. */
  lemma {:induction false} ShortDocumentOneChunk(text: string)
    requires 0 < |CleanText(text)| <= ChunkSize - Overlap
    ensures DocumentChunks(text) == [CleanText(text)]
  {
    var c := CleanText(text);
    ChunkCount(c, ChunkSize, Overlap);
    DivUnique(|c| + 699, 700, 1, |c| - 1);
    ChunkAt(c, ChunkSize, Overlap, 0);
    assert c[0..|c|] == c;
    CleanTextIsClean(text);
    StripClean(c);
  }

  /** A clean text is its own strip. */
  lemma {:induction false} StripClean(s: string)
    requires IsClean(s)
    ensures Strip(s) == s
  {
    DropSpacesNoLead(s);
    if s != [] {
      assert !IsSpace(s[|s| - 1]);
    }
  }
}
