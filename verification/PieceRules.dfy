/** Where the pre-tokenizer cuts, case by case, as a relation between the two ends of a piece. */
module PieceRules {
  import opened Utf8

  predicate IsDigit(c: byte) { '0' as int <= c <= '9' as int }

  predicate IsLetter(c: byte) { 'a' as int <= c <= 'z' as int || 'A' as int <= c <= 'Z' as int }

  predicate IsNewline(c: byte) { c == '\n' as int || c == '\r' as int }

  /** A blank, a tab, a newline, a vertical tab, a form feed or a carriage return. */
  predicate IsSpace(c: byte) { c == ' ' as int || 9 <= c <= 13 }

  /** A graphic ASCII character that is neither a letter nor a digit. */
  predicate IsPunct(c: byte) { '!' as int <= c <= '~' as int && !IsLetter(c) && !IsDigit(c) }

  /** A letter, or any byte of a character outside ASCII. */
  predicate InWord(c: byte) { IsLetter(c) || c >= 128 }

  /** A Chinese character or a Japanese syllable, three bytes long, starts at `k`. */
  predicate IsCjk(text: seq<byte>, k: nat) {
    k + 2 < |text| && 0xe0 <= text[k] <= 0xef
    && (var cp: int := (text[k] as int - 0xe0) * 0x1000 + (text[k + 1] as int - 0x80) * 0x40 + (text[k + 2] as int - 0x80);
        0x4e00 <= cp <= 0x9fa5 || 0x3040 <= cp <= 0x30ff)
  }

  /** `p..q` is the whole run of the class from `p` on. */
  ghost predicate Run(text: seq<byte>, p: nat, q: nat, class_: byte -> bool) {
    && p <= q <= |text| && (forall k :: p <= k < q ==> class_(text[k]))
    && (q < |text| ==> !class_(text[q]))
  }

  /** Up to three digits, fewer only if no more follow. */
  ghost predicate NumberPiece(text: seq<byte>, p: nat, q: nat) {
    && p < q <= |text| && q <= p + 3 && (forall k :: p <= k < q ==> IsDigit(text[k]))
    && (q < p + 3 && q < |text| ==> !IsDigit(text[q]))
  }

  /** As many characters of the two scripts as follow each other. */
  ghost predicate CjkPiece(text: seq<byte>, p: nat, q: nat)
    decreases q - p
  {
    if p < q then IsCjk(text, p) && CjkPiece(text, p + 3, q) else p == q && !IsCjk(text, p)
  }

  /** The punctuation from `s` on, and all the newlines behind it. */
  ghost predicate PunctPiece(text: seq<byte>, s: nat, q: nat) {
    exists m: nat :: s < m && Run(text, s, m, IsPunct) && Run(text, m, q, IsNewline)
  }

  /**
   Of a whole run of spaces `p..e`: up to its last newline; without a newline all of it, but for the
   last space if a word or punctuation follows and it is not the only one.
   */
  ghost predicate SpacesTo(text: seq<byte>, p: nat, e: nat, q: nat) {
    && p < q <= e && Run(text, p, e, IsSpace)
    && (forall k :: q <= k < e ==> !IsNewline(text[k]))
    && (IsNewline(text[q - 1])
        || ((forall k :: p <= k < e ==> !IsNewline(text[k]))
            && q == if e < |text| && e - p >= 2 && (InWord(text[e]) || IsPunct(text[e])) then e - 1 else e))
  }

  ghost predicate SpacePiece(text: seq<byte>, p: nat, q: nat) {
    exists e: nat :: SpacesTo(text, p, e, q)
  }

  /** The piece that starts at `p` ends at `q`. */
  ghost predicate PieceIs(text: seq<byte>, p: nat, q: nat) {
    && p < q <= |text|
    && var c, more := text[p], p + 1 < |text|;
       if IsDigit(c) then NumberPiece(text, p, q)
       else if IsCjk(text, p) then CjkPiece(text, p, q)
       else if IsPunct(c) && more && IsLetter(text[p + 1]) then Run(text, p + 1, q, IsLetter)
       else if InWord(c) then Run(text, p, q, InWord)
       else if !IsNewline(c) && !IsPunct(c) && more && InWord(text[p + 1]) then Run(text, p + 1, q, InWord)
       else if c == ' ' as int && more && IsPunct(text[p + 1]) then PunctPiece(text, p + 1, q)
       else if IsPunct(c) then PunctPiece(text, p, q)
       else if IsSpace(c) then SpacePiece(text, p, q)
       else q == p + 1
  }

  // ---------------------------------------------------------------- only one end fits

  lemma RunEndsOnce(text: seq<byte>, p: nat, q: nat, r: nat, class_: byte -> bool)
    requires Run(text, p, q, class_) && Run(text, p, r, class_)
    ensures q == r
  {
  }

  lemma {:induction false} CjkEndsOnce(text: seq<byte>, p: nat, q: nat, r: nat)
    requires CjkPiece(text, p, q) && CjkPiece(text, p, r)
    ensures q == r
    decreases q - p
  {
    if p >= q {
    } else {
      CjkEndsOnce(text, p + 3, q, r);
    }
  }

  lemma PunctEndsOnce(text: seq<byte>, s: nat, q: nat, r: nat)
    requires PunctPiece(text, s, q) && PunctPiece(text, s, r)
    ensures q == r
  {
    var m: nat :| s < m && Run(text, s, m, IsPunct) && Run(text, m, q, IsNewline);
    var n: nat :| s < n && Run(text, s, n, IsPunct) && Run(text, n, r, IsNewline);
    RunEndsOnce(text, s, m, n, IsPunct);
    RunEndsOnce(text, m, q, r, IsNewline);
  }

  lemma SpaceEndsOnce(text: seq<byte>, p: nat, q: nat, r: nat)
    requires SpacePiece(text, p, q) && SpacePiece(text, p, r)
    ensures q == r
  {
    var e: nat :| SpacesTo(text, p, e, q);
    var f: nat :| SpacesTo(text, p, f, r);
    RunEndsOnce(text, p, e, f, IsSpace);
  }

  /** No other end fits. */
  lemma PieceEndsOnce(text: seq<byte>, p: nat, q: nat, r: nat)
    requires PieceIs(text, p, q) && PieceIs(text, p, r)
    ensures q == r
  {
    var c, more := text[p], p + 1 < |text|;
    if IsDigit(c) {
    } else if IsCjk(text, p) {
      CjkEndsOnce(text, p, q, r);
    } else if IsPunct(c) && more && IsLetter(text[p + 1]) {
    } else if InWord(c) {
    } else if !IsNewline(c) && !IsPunct(c) && more && InWord(text[p + 1]) {
    } else if c == ' ' as int && more && IsPunct(text[p + 1]) {
      PunctEndsOnce(text, p + 1, q, r);
    } else if IsPunct(c) {
      PunctEndsOnce(text, p, q, r);
    } else if IsSpace(c) {
      SpaceEndsOnce(text, p, q, r);
    }
  }
}
