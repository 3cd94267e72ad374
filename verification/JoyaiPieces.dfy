/** The JoyAI pre-tokenizer: cuts text into pieces that are merged separately. */
module JoyaiPieces {
  import opened Utf8
  import opened PieceRules

  predicate Alpha(c: byte) { 65 <= c <= 90 || 97 <= c <= 122 }

  predicate Digit(c: byte) { 48 <= c <= 57 }

  predicate Space(c: byte) { c == 32 || 9 <= c <= 13 }

  predicate Newline(c: byte) { c == 10 || c == 13 }

  /** `joyai_ascii_punct_symbol` */
  predicate Punct(c: byte) { 33 <= c <= 47 || 58 <= c <= 64 || 91 <= c <= 96 || 123 <= c <= 126 }

  /** `joyai_letter_like_at`, on the byte there: an ASCII letter, or any byte outside ASCII. */
  predicate LetterLike(c: byte) { Alpha(c) || c >= 128 }

  /** The code point of the three-byte character at `p`. */
  function CodePoint3(text: seq<byte>, p: nat): int
    requires p + 3 <= |text|
  {
    var b0: int, b1: int, b2: int := text[p], text[p + 1], text[p + 2];
    (b0 - 224) * 4096 + (b1 - 128) * 64 + (b2 - 128)
  }

  /** `joyai_cjk_at`: the ranges hold only characters of three bytes. */
  predicate CjkAt(text: seq<byte>, p: nat)
    requires WellFormed(text) && p < |text| && Boundary(text, p)
  {
    CharLen(text[p]) == 3
    && (assert CompleteAt(text, p);
        var cp := CodePoint3(text, p);
        0x4e00 <= cp <= 0x9fa5 || 0x3040 <= cp <= 0x309f || 0x30a0 <= cp <= 0x30ff)
  }

  // ---------------------------------------------------------------- scans

  /** The classes scanned byte by byte; they hold ASCII bytes only. */
  datatype Class = Digits | Alphas | Spaces | Newlines | Puncts

  predicate In(f: Class, c: byte) {
    match f
    case Digits => Digit(c)
    case Alphas => Alpha(c)
    case Spaces => Space(c)
    case Newlines => Newline(c)
    case Puncts => Punct(c)
  }

  /** The first position from `p` on whose byte is not in the class, at most `limit` bytes on. */
  function Scan(text: seq<byte>, p: nat, f: Class, limit: nat): (q: nat)
    requires p <= |text|
    ensures p <= q <= |text| && q <= p + limit
    ensures forall k :: p <= k < q ==> In(f, text[k])
    ensures q < |text| && q < p + limit ==> !In(f, text[q])
    decreases limit
  {
    if limit > 0 && p < |text| && In(f, text[p]) then Scan(text, p + 1, f, limit - 1) else p
  }

  /** `joyai_consume_letters` */
  function ScanLetters(text: seq<byte>, p: nat): (q: nat)
    requires WellFormed(text) && p <= |text| && Boundary(text, p)
    ensures p <= q <= |text| && Boundary(text, q)
    ensures forall k :: p <= k < q ==> LetterLike(text[k])
    ensures p < |text| && LetterLike(text[p]) ==> q > p
    decreases |text| - p
  {
    if p < |text| && LetterLike(text[p]) then
      assert CompleteAt(text, p);
      ScanLetters(text, NextChar(text, p))
    else p
  }

  function ScanCjk(text: seq<byte>, p: nat): (q: nat)
    requires WellFormed(text) && p <= |text| && Boundary(text, p)
    ensures p <= q <= |text| && Boundary(text, q)
    ensures forall k :: p <= k < q ==> text[k] >= 128
    ensures p < |text| && CjkAt(text, p) ==> q > p
    decreases |text| - p
  {
    if p < |text| && CjkAt(text, p) then
      assert CompleteAt(text, p);
      ScanCjk(text, NextChar(text, p))
    else p
  }

  /** The position after the last newline of `p..q`, zero if there is none. */
  function LastNewlineEnd(text: seq<byte>, p: nat, q: nat): (e: nat)
    requires p <= q <= |text|
    ensures e == 0 || (p < e <= q && Newline(text[e - 1]))
    ensures forall k :: (if e == 0 then p else e) <= k < q ==> !Newline(text[k])
  {
    if p == q then 0 else if Newline(text[q - 1]) then q else LastNewlineEnd(text, p, q - 1)
  }

  // ---------------------------------------------------------------- one piece

  const DIGITS_PER_PIECE: nat := 3

  /** Punctuation from `p` on, and the newlines that follow it. */
  function PunctEnd(text: seq<byte>, p: nat): (q: nat)
    requires p <= |text|
    ensures p <= q <= |text|
  {
    Scan(text, Scan(text, p, Puncts, |text|), Newlines, |text|)
  }

  /** Where a run of spaces from `p` on is cut. */
  function SpaceEnd(text: seq<byte>, p: nat): (e: nat)
    requires p <= |text|
    ensures e <= |text|
  {
    var q := Scan(text, p, Spaces, |text|);
    var newlineEnd := LastNewlineEnd(text, p, q);
    if newlineEnd != 0 then newlineEnd
    else if q < |text| && q > p + 1 && (LetterLike(text[q]) || Punct(text[q])) then q - 1
    else q
  }

  /** The end the case for the byte at `p` finds. */
  function CaseEnd(text: seq<byte>, p: nat): (q: nat)
    requires WellFormed(text) && p < |text| && Boundary(text, p)
    ensures q <= |text|
  {
    var c := text[p];
    if Digit(c) then Scan(text, p, Digits, DIGITS_PER_PIECE)
    else if CjkAt(text, p) then ScanCjk(text, NextChar(text, p))
    else if Punct(c) && p + 1 < |text| && Alpha(text[p + 1]) then Scan(text, p + 1, Alphas, |text|)
    else if LetterLike(c) then ScanLetters(text, p)
    else
      assert CompleteAt(text, p);
      if !Newline(c) && !Punct(c) && p + 1 < |text| && LetterLike(text[p + 1]) then ScanLetters(text, p + 1)
      else if c == 32 && p + 1 < |text| && Punct(text[p + 1]) then PunctEnd(text, p + 1)
      else if Punct(c) then PunctEnd(text, p)
      else if Space(c) then SpaceEnd(text, p)
      else NextChar(text, p)
  }

  /** The end of the piece that starts at `p`: a case that found nothing takes one character. */
  function PieceEnd(text: seq<byte>, p: nat): (q: nat)
    requires WellFormed(text) && p < |text| && Boundary(text, p)
    ensures q <= |text|
  {
    var q := CaseEnd(text, p);
    if q == p then NextChar(text, p) else q
  }

  /** In no piece is a letter followed by ASCII punctuation. */
  ghost predicate Tame(text: seq<byte>, p: nat, q: nat) {
    p <= q <= |text| && forall k :: p <= k < q - 1 ==> !(Alpha(text[k]) && Punct(text[k + 1]))
  }

  /** What every piece is: nonempty, cut at character boundaries, and tame. */
  ghost predicate Good(text: seq<byte>, p: nat, q: nat) {
    p < q <= |text| && Boundary(text, q) && Tame(text, p, q)
  }

  lemma {:induction false} AsciiRunBoundary(text: seq<byte>, p: nat, q: nat)
    requires WellFormed(text) && p <= q <= |text| && Boundary(text, p)
    requires forall k :: p <= k < q ==> text[k] < 128
    ensures Boundary(text, q)
  {
    if p == q {
    } else {
      AsciiRunBoundary(text, p, q - 1);
      assert CompleteAt(text, q - 1);
    }
  }

  /** One byte of any kind, then ASCII without letters. */
  lemma NoLettersIsGood(text: seq<byte>, p: nat, q: nat)
    requires WellFormed(text) && p < q <= |text| && Boundary(text, p)
    requires text[p] < 128 && !Alpha(text[p]) && forall k :: p < k < q ==> text[k] < 128 && !Alpha(text[k])
    ensures Good(text, p, q)
  {
    AsciiRunBoundary(text, p, q);
  }

  lemma LettersAreGood(text: seq<byte>, p: nat, q: nat)
    requires p < q <= |text| && Boundary(text, q)
    requires forall k :: p < k < q ==> LetterLike(text[k])
    ensures Good(text, p, q)
  {
  }

  lemma SpaceCase(text: seq<byte>, p: nat)
    requires WellFormed(text) && p < |text| && Boundary(text, p) && Space(text[p])
    ensures Good(text, p, SpaceEnd(text, p))
  {
    var q := Scan(text, p, Spaces, |text|);
    assert q > p;
    NoLettersIsGood(text, p, SpaceEnd(text, p));
  }

  lemma PunctCase(text: seq<byte>, p: nat, s: nat)
    requires WellFormed(text) && p < |text| && Boundary(text, p) && p <= s <= p + 1
    requires text[p] < 128 && !Alpha(text[p]) && s < |text| && Punct(text[s])
    ensures Good(text, p, PunctEnd(text, s))
  {
    var m, q := Scan(text, s, Puncts, |text|), PunctEnd(text, s);
    assert m > s;
    assert forall k :: s <= k < m ==> In(Puncts, text[k]);
    assert forall k :: m <= k < q ==> In(Newlines, text[k]);
    NoLettersIsGood(text, p, q);
  }

  lemma PunctThenLetters(text: seq<byte>, p: nat)
    requires WellFormed(text) && p + 1 < |text| && Boundary(text, p) && Punct(text[p]) && Alpha(text[p + 1])
    ensures Good(text, p, Scan(text, p + 1, Alphas, |text|))
  {
    var q := Scan(text, p + 1, Alphas, |text|);
    assert forall k :: p < k < q ==> In(Alphas, text[k]);
    AsciiRunBoundary(text, p, q);
    LettersAreGood(text, p, q);
  }

  lemma DigitCase(text: seq<byte>, p: nat)
    requires WellFormed(text) && p < |text| && Boundary(text, p) && Digit(text[p])
    ensures Good(text, p, Scan(text, p, Digits, DIGITS_PER_PIECE))
  {
    var q := Scan(text, p, Digits, DIGITS_PER_PIECE);
    assert forall k :: p <= k < q ==> In(Digits, text[k]);
    NoLettersIsGood(text, p, q);
  }

  /** Every piece is good; no case comes out empty. */
  lemma PieceEndIsGood(text: seq<byte>, p: nat)
    requires WellFormed(text) && p < |text| && Boundary(text, p)
    ensures PieceEnd(text, p) == CaseEnd(text, p) && Good(text, p, PieceEnd(text, p))
  {
    var c, n := text[p], p + 1;
    assert CompleteAt(text, p);
    if Digit(c) {
      DigitCase(text, p);
    } else if CjkAt(text, p) {
      CjkCase(text, p);
    } else if Punct(c) && n < |text| && Alpha(text[n]) {
      PunctThenLetters(text, p);
    } else if LetterLike(c) {
      LettersAreGood(text, p, ScanLetters(text, p));
    } else if !Newline(c) && !Punct(c) && n < |text| && LetterLike(text[n]) {
      LettersAreGood(text, p, ScanLetters(text, n));
    } else if c == 32 && n < |text| && Punct(text[n]) {
      PunctCase(text, p, n);
    } else if Punct(c) {
      PunctCase(text, p, p);
    } else if Space(c) {
      SpaceCase(text, p);
    }
  }

  lemma CjkCase(text: seq<byte>, p: nat)
    requires WellFormed(text) && p < |text| && Boundary(text, p) && CjkAt(text, p)
    ensures Good(text, p, ScanCjk(text, NextChar(text, p)))
  {
    var m := NextChar(text, p);
    assert CompleteAt(text, p);
    LettersAreGood(text, p, ScanCjk(text, m));
  }

  // ---------------------------------------------------------------- the ends are those of the rules

  lemma ClassesAgree(c: byte)
    ensures Digit(c) == IsDigit(c) && Alpha(c) == IsLetter(c) && Newline(c) == IsNewline(c) && Space(c) == IsSpace(c)
    ensures Punct(c) == IsPunct(c) && LetterLike(c) == InWord(c)
  {
  }

  lemma CjkAgrees(text: seq<byte>, p: nat)
    requires WellFormed(text) && p < |text| && Boundary(text, p)
    ensures CjkAt(text, p) == IsCjk(text, p)
  {
    assert CompleteAt(text, p);
  }

  lemma ScanIsRun(text: seq<byte>, p: nat, f: Class, class_: byte -> bool)
    requires p <= |text| && forall c: byte :: In(f, c) == class_(c)
    ensures Run(text, p, Scan(text, p, f, |text|), class_)
  {
    var q := Scan(text, p, f, |text|);
    assert forall k :: p <= k < q ==> In(f, text[k]);
    assert q < |text| ==> !In(f, text[q]);
  }

  lemma {:induction false} LettersEnd(text: seq<byte>, p: nat)
    requires WellFormed(text) && p <= |text| && Boundary(text, p)
    ensures ScanLetters(text, p) < |text| ==> !LetterLike(text[ScanLetters(text, p)])
    decreases |text| - p
  {
    if p == |text| || !LetterLike(text[p]) {
    } else {
      LettersEnd(text, NextChar(text, p));
    }
  }

  lemma LettersAreRun(text: seq<byte>, p: nat)
    requires WellFormed(text) && p <= |text| && Boundary(text, p)
    ensures Run(text, p, ScanLetters(text, p), InWord)
  {
    LettersEnd(text, p);
  }

  lemma {:induction false} CjkIsPiece(text: seq<byte>, p: nat)
    requires WellFormed(text) && p <= |text| && Boundary(text, p)
    ensures CjkPiece(text, p, ScanCjk(text, p))
    decreases |text| - p
  {
    if p < |text| {
      CjkAgrees(text, p);
      assert CompleteAt(text, p);
      if CjkAt(text, p) {
        CjkIsPiece(text, NextChar(text, p));
      }
    }
  }

  lemma PunctIsPiece(text: seq<byte>, s: nat)
    requires s < |text| && Punct(text[s])
    ensures PunctPiece(text, s, PunctEnd(text, s))
  {
    forall c: byte
      ensures In(Puncts, c) == IsPunct(c) && In(Newlines, c) == IsNewline(c)
    {
      ClassesAgree(c);
    }
    var m := Scan(text, s, Puncts, |text|);
    ScanIsRun(text, s, Puncts, IsPunct);
    ScanIsRun(text, m, Newlines, IsNewline);
    assert In(Puncts, text[s]);
  }

  lemma SpacesArePiece(text: seq<byte>, p: nat)
    requires p < |text| && Space(text[p])
    ensures SpacePiece(text, p, SpaceEnd(text, p))
  {
    forall c: byte
      ensures In(Spaces, c) == IsSpace(c)
    {
      ClassesAgree(c);
    }
    var e := Scan(text, p, Spaces, |text|);
    ScanIsRun(text, p, Spaces, IsSpace);
    assert In(Spaces, text[p]);
    assert SpacesTo(text, p, e, SpaceEnd(text, p));
  }

  lemma AlphasAreRun(text: seq<byte>, p: nat)
    requires p <= |text|
    ensures Run(text, p, Scan(text, p, Alphas, |text|), IsLetter)
  {
    forall c: byte
      ensures In(Alphas, c) == IsLetter(c)
    {
      ClassesAgree(c);
    }
    ScanIsRun(text, p, Alphas, IsLetter);
  }

  lemma DigitsArePiece(text: seq<byte>, p: nat)
    requires p < |text| && Digit(text[p])
    ensures NumberPiece(text, p, Scan(text, p, Digits, DIGITS_PER_PIECE))
  {
    var q := Scan(text, p, Digits, DIGITS_PER_PIECE);
    assert forall k :: p <= k < q ==> In(Digits, text[k]);
    assert q < |text| && q < p + DIGITS_PER_PIECE ==> !In(Digits, text[q]);
    assert In(Digits, text[p]);
  }

  /** Every piece ends where the rules say. */
  lemma PieceEndIs(text: seq<byte>, p: nat)
    requires WellFormed(text) && p < |text| && Boundary(text, p)
    ensures PieceIs(text, p, PieceEnd(text, p))
  {
    var c, n := text[p], p + 1;
    PieceEndIsGood(text, p);
    assert CompleteAt(text, p);
    CjkAgrees(text, p);
    ClassesAgree(c);
    if n < |text| {
      ClassesAgree(text[n]);
    }
    if Digit(c) {
      DigitsArePiece(text, p);
    } else if CjkAt(text, p) {
      CjkIsPiece(text, NextChar(text, p));
    } else if Punct(c) && n < |text| && Alpha(text[n]) {
      AlphasAreRun(text, n);
    } else if LetterLike(c) {
      LettersAreRun(text, p);
    } else if !Newline(c) && !Punct(c) && n < |text| && LetterLike(text[n]) {
      LettersAreRun(text, n);
    } else if c == 32 && n < |text| && Punct(text[n]) {
      PunctIsPiece(text, n);
    } else if Punct(c) {
      PunctIsPiece(text, p);
    } else if Space(c) {
      SpacesArePiece(text, p);
    }
  }

  // ---------------------------------------------------------------- all pieces

  datatype Piece = Piece(start: nat, end: nat)

  /** The pieces of the text from `p` on. */
  function Pieces(text: seq<byte>, p: nat): seq<Piece>
    requires WellFormed(text) && p <= |text| && Boundary(text, p)
    decreases |text| - p
  {
    if p == |text| then []
    else
      PieceEndIsGood(text, p);
      var q := PieceEnd(text, p);
      [Piece(p, q)] + Pieces(text, q)
  }

  /** Consecutive good pieces from `p` to the end of the text. */
  ghost predicate Partition(text: seq<byte>, p: nat, pieces: seq<Piece>)
    requires p <= |text|
    decreases pieces
  {
    if pieces == [] then p == |text|
    else pieces[0].start == p && Good(text, p, pieces[0].end) && Partition(text, pieces[0].end, pieces[1..])
  }

  lemma {:induction false} PiecesPartition(text: seq<byte>, p: nat)
    requires WellFormed(text) && p <= |text| && Boundary(text, p)
    ensures Partition(text, p, Pieces(text, p))
    decreases |text| - p
  {
    if p == |text| {
    } else {
      PieceEndIsGood(text, p);
      var q := PieceEnd(text, p);
      PiecesPartition(text, q);
      assert Pieces(text, p)[1..] == Pieces(text, q);
    }
  }

  /** Consecutive pieces by the rules, from `p` to the end of the text. */
  ghost predicate CutByRules(text: seq<byte>, p: nat, pieces: seq<Piece>)
    decreases pieces
  {
    if pieces == [] then p == |text|
    else pieces[0].start == p && PieceIs(text, p, pieces[0].end) && CutByRules(text, pieces[0].end, pieces[1..])
  }

  lemma {:induction false} PiecesByRules(text: seq<byte>, p: nat)
    requires WellFormed(text) && p <= |text| && Boundary(text, p)
    ensures CutByRules(text, p, Pieces(text, p))
    decreases |text| - p
  {
    if p == |text| {
    } else {
      PieceEndIsGood(text, p);
      PieceEndIs(text, p);
      var q := PieceEnd(text, p);
      PiecesByRules(text, q);
      assert Pieces(text, p)[1..] == Pieces(text, q);
    }
  }

  /** The rules leave one way to cut a text. */
  lemma {:induction false} CutOnce(text: seq<byte>, p: nat, a: seq<Piece>, b: seq<Piece>)
    requires CutByRules(text, p, a) && CutByRules(text, p, b)
    ensures a == b
    decreases a
  {
    if a == [] || b == [] {
      assert a == b == [];
    } else {
      PieceEndsOnce(text, p, a[0].end, b[0].end);
      CutOnce(text, a[0].end, a[1..], b[1..]);
      assert a == [a[0]] + a[1..] && b == [b[0]] + b[1..];
    }
  }

  // ---------------------------------------------------------------- the loops

  method ScanWhile(text: seq<byte>, p: nat, f: Class, limit: nat) returns (pos: nat)
    requires p <= |text|
    ensures pos == Scan(text, p, f, limit)
  {
    pos := p;
    var n := 0;
    while pos < |text| && In(f, text[pos]) && n < limit
      invariant p <= pos <= |text| && n <= limit && Scan(text, p, f, limit) == Scan(text, pos, f, limit - n)
    {
      pos := pos + 1;
      n := n + 1;
    }
  }

  method ConsumeLetters(text: seq<byte>, p: nat) returns (pos: nat)
    requires WellFormed(text) && p <= |text| && Boundary(text, p)
    ensures pos == ScanLetters(text, p)
  {
    pos := p;
    while pos < |text| && LetterLike(text[pos])
      invariant p <= pos <= |text| && Boundary(text, pos) && ScanLetters(text, p) == ScanLetters(text, pos)
      decreases |text| - pos
    {
      pos := NextChar(text, pos);
    }
  }

  method ConsumeCjk(text: seq<byte>, p: nat) returns (pos: nat)
    requires WellFormed(text) && p < |text| && Boundary(text, p)
    ensures pos == ScanCjk(text, NextChar(text, p))
  {
    pos := NextChar(text, p);
    ghost var first := pos;
    while true
      invariant first <= pos <= |text| && Boundary(text, pos) && ScanCjk(text, first) == ScanCjk(text, pos)
      decreases |text| - pos
    {
      if pos >= |text| || !CjkAt(text, pos) {
        break;
      }
      pos := NextChar(text, pos);
    }
  }

  /** The space case: one loop that remembers the end of the last newline. */
  method ConsumeSpaces(text: seq<byte>, start: nat) returns (pos: nat)
    requires start <= |text|
    ensures pos == SpaceEnd(text, start)
  {
    var p := start;
    var lastNewlineEnd := 0;
    while p < |text| && Space(text[p])
      invariant start <= p <= |text| && lastNewlineEnd == LastNewlineEnd(text, start, p)
      invariant Scan(text, start, Spaces, |text|) == Scan(text, p, Spaces, |text| - (p - start))
    {
      var sc := text[p];
      p := p + 1;
      if Newline(sc) {
        lastNewlineEnd := p;
      }
    }
    if lastNewlineEnd != 0 {
      pos := lastNewlineEnd;
    } else if p < |text| && p > start + 1 && (LetterLike(text[p]) || Punct(text[p])) {
      pos := p - 1;
    } else {
      pos := p;
    }
  }

  method ConsumePunct(text: seq<byte>, p: nat) returns (pos: nat)
    requires p <= |text|
    ensures pos == PunctEnd(text, p)
  {
    pos := ScanWhile(text, p, Puncts, |text|);
    pos := ScanWhile(text, pos, Newlines, |text|);
  }

  /** The body of the loop of `joyai_pieces`. */
  method NextPiece(text: seq<byte>, start: nat) returns (pos: nat)
    requires WellFormed(text) && start < |text| && Boundary(text, start)
    ensures pos == PieceEnd(text, start) && PieceIs(text, start, pos)
  {
    PieceEndIs(text, start);
    pos := start;
    var c := text[pos];
    if Digit(c) {
      pos := ScanWhile(text, pos, Digits, DIGITS_PER_PIECE);
    } else if CjkAt(text, pos) {
      pos := ConsumeCjk(text, pos);
    } else if Punct(c) && pos + 1 < |text| && Alpha(text[pos + 1]) {
      pos := ScanWhile(text, pos + 1, Alphas, |text|);
    } else if LetterLike(c) {
      pos := ConsumeLetters(text, pos);
    } else {
      assert CompleteAt(text, pos);
      if !Newline(c) && !Punct(c) && pos + 1 < |text| && LetterLike(text[pos + 1]) {
        pos := ConsumeLetters(text, pos + 1);
      } else if c == 32 && pos + 1 < |text| && Punct(text[pos + 1]) {
        pos := ConsumePunct(text, pos + 1);
      } else if Punct(c) {
        pos := ConsumePunct(text, pos);
      } else if Space(c) {
        pos := ConsumeSpaces(text, pos);
      } else {
        pos := NextChar(text, pos);
      }
    }
    if pos == start {
      pos := NextChar(text, start);
    }
  }

  /** `joyai_pieces` */
  method Cut(text: seq<byte>) returns (out: seq<Piece>)
    requires WellFormed(text)
    ensures out == Pieces(text, 0) && Partition(text, 0, out) && CutByRules(text, 0, out)
  {
    var pos := 0;
    out := [];
    while pos < |text|
      invariant pos <= |text| && Boundary(text, pos) && Pieces(text, 0) == out + Pieces(text, pos)
      decreases |text| - pos
    {
      var start := pos;
      pos := NextPiece(text, start);
      PieceEndIsGood(text, start);
      out := out + [Piece(start, pos)];
    }
    PiecesPartition(text, 0);
    PiecesByRules(text, 0);
  }
}
