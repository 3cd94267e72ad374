/** A session's way to disk and back: saved, stored by the server, loaded and restored. */
module Persistence {
  import opened Wrappers
  import opened Utf8
  import opened Utf8Text
  import opened LittleEndian
  import opened Snapshot
  import opened KvStore
  import T = ToolMap
  import S = Session

  /** What the server writes into an entry beside the session's own state. */
  datatype Note = Note(reason: seq<byte>, renderedText: seq<byte>, toolReplay: seq<T.ToolReplay>, now: u64)

  /** The texts are strings and their sizes fit the file's fields. */
  ghost predicate Keepable(note: Note) {
    && |note.reason| < TWO_TO_THE_32 && |note.renderedText| < TWO_TO_THE_32 && T.Writable(note.toolReplay)
    && IsText(note.reason) && IsText(note.renderedText) && T.Texts(IsText, note.toolReplay)
  }

  /** The server's entry: `tokens` are those of the rendered prompt, the snapshot is the session's. */
  function EntryOf(s: Saved, tokens: seq<i32>, note: Note): Entry {
    Entry(note.reason, note.renderedText, tokens, Payload(s), note.toolReplay, s.ctx, 0, note.now, note.now)
  }

  ghost predicate WithinLimits(s: Saved, tokens: seq<i32>) {
    Fits(s) && 0 < s.ctx < TWO_TO_THE_32 && |tokens| < TWO_TO_THE_32
  }

  /** The loader accepts an entry made with no tokens, or with as many as the session held. */
  predicate Accepted(tokens: seq<i32>, held: seq<i32>) {
    tokens == [] || |tokens| == |held|
  }

  lemma EntryIsStorable(s: Saved, tokens: seq<i32>, note: Note)
    requires WithinLimits(s, tokens) && Keepable(note)
    ensures Storable(EntryOf(s, tokens, note)) && EntryTexts(IsText, EntryOf(s, tokens, note))
  {
    PayloadParts(s);
  }

  /** What is loaded of the entry, and what the session's parser makes of the loaded snapshot. */
  lemma EntryReloads(s: Saved, tokens: seq<i32>, note: Note)
    requires WithinLimits(s, tokens)
    ensures var e := EntryOf(s, tokens, note);
            Reloaded(e) == if Accepted(tokens, s.tokens) then Some(e.(tokens := s.tokens)) else None
    ensures Parse(Payload(s)).Some?
    ensures var p := Parse(Payload(s)).value; p.ctx == s.ctx && p.tokens == s.tokens && p.logits == s.logits
  {
    SaveKeeps(s);
    ParsersAgree(Payload(s));
  }

  /** `store_visible_kv_entry`: the file under the note's text is that of the session's entry. */
  method Keep(session: S.Session, disk: KvDiskStore, tokens: seq<i32>, note: Note)
    requires WithinLimits(session.Image(), tokens) && Keepable(note)
    modifies disk
    ensures |Payload(session.Image())| < TWO_TO_THE_64
    ensures disk.files == old(disk.files)[note.renderedText := FileBytes(EntryOf(session.Image(), tokens, note))]
  {
    var bytes := session.Save();
    EntryIsStorable(session.Image(), tokens, note);
    var ok := disk.Store(Entry(note.reason, note.renderedText, tokens, bytes, note.toolReplay, session.ctxSize, 0, note.now, note.now));
  }

  /** `save_snapshot`, `store`, any other stores, `load_rendered_text`, `load_snapshot`. */
  method SaveThenRestore(source: S.Session, disk: KvDiskStore, tokens: seq<i32>, note: Note, others: seq<Entry>, target: S.Session)
    returns (r: LoadResult)
    requires source.Sound() && target.Sound() && source.engine == target.engine
    requires WithinLimits(source.Image(), tokens) && Keepable(note)
    requires forall i :: 0 <= i < |others| ==> others[i].renderedText != note.renderedText
    modifies disk, target, target.kv
    ensures r.Found? <==> Accepted(tokens, old(source.checkpoint))
    ensures !r.Found? ==> r.Failed? && target.checkpoint == old(target.checkpoint) && target.logits == old(target.logits)
    ensures r.Found? ==> r.entry == EntryOf(old(source.Image()), old(source.checkpoint), note)
    ensures r.Found? ==> target.checkpoint == old(source.checkpoint) && target.ctxSize == old(source.ctxSize)
    ensures r.Found? ==> target.logits == old(source.logits)
    ensures target.Sound()
  {
    ghost var s := source.Image();
    var bytes := source.Save();
    var e := Entry(note.reason, note.renderedText, tokens, bytes, note.toolReplay, source.ctxSize, 0, note.now, note.now);
    EntryIsStorable(s, tokens, note);
    EntryReloads(s, tokens, note);
    r := StoreAllThenLoad(disk, e, others);
    if r.Found? {
      target.Load(r.entry.snapshot);
    }
  }

  /** The tokens a reply adds: no more than the context leaves room for. */
  function Room(prompt: seq<i32>, budget: nat, ctx: nat): nat
    requires |prompt| < ctx
  {
    if |prompt| + budget < ctx then budget else ctx - 1 - |prompt|
  }

  /** The file stored for a reply loads again exactly when the reply added no token to the prompt. */
  ghost predicate LoadsIfSilent(bytes: seq<byte>, prompt: seq<i32>, added: nat) {
    |bytes| >= FILE_HEADER_BYTES && (LoadKvc(IsText, bytes).Some? <==> prompt == [] || added == 0)
  }

  lemma StoredReply(s: Saved, prompt: seq<i32>, added: nat, note: Note)
    requires WithinLimits(s, prompt) && Keepable(note) && |s.tokens| == |prompt| + added
    ensures |Payload(s)| < TWO_TO_THE_64 && LoadsIfSilent(FileBytes(EntryOf(s, prompt, note)), prompt, added)
  {
    EntryIsStorable(s, prompt, note);
    EntryReloads(s, prompt, note);
    StoreThenLoad(IsText, EntryOf(s, prompt, note));
  }

  /** Sync to the prompt, then generate until the budget or the context ends. */
  method Reply(session: S.Session, prompt: seq<i32>, budget: nat) returns (ok: bool)
    requires session.Sound()
    modifies session, session.kv
    ensures session.Sound() && session.ctxSize == old(session.ctxSize)
    ensures ok <==> |prompt| < session.ctxSize
    ensures !ok ==> session.checkpoint == old(session.checkpoint)
    ensures ok ==> prompt <= session.checkpoint && |session.checkpoint| == |prompt| + Room(prompt, budget, session.ctxSize)
  {
    var synced := session.Sync(prompt);
    ok := synced.Synced?;
    if ok {
      var generated := session.GenerateArgmaxTokens(budget);
    }
  }

  /**
   A request: the session is synced to the prompt, tokens are generated until the budget or the
   context ends, and the entry is stored with the prompt's tokens but the whole session's snapshot.
   */
  method Respond(session: S.Session, disk: KvDiskStore, prompt: seq<i32>, budget: nat, note: Note) returns (ok: bool)
    requires session.Sound() && session.ctxSize < TWO_TO_THE_32 && Keepable(note)
    modifies disk, session, session.kv
    ensures session.Sound() && session.ctxSize == old(session.ctxSize)
    ensures ok <==> |prompt| < session.ctxSize
    ensures !ok ==> disk.files == old(disk.files) && session.checkpoint == old(session.checkpoint)
    ensures ok ==> prompt <= session.checkpoint && |session.checkpoint| == |prompt| + Room(prompt, budget, session.ctxSize)
    ensures ok ==> note.renderedText in disk.files
                   && LoadsIfSilent(disk.files[note.renderedText], prompt, Room(prompt, budget, session.ctxSize))
  {
    ok := Reply(session, prompt, budget);
    if ok {
      StoredReply(session.Image(), prompt, Room(prompt, budget, session.ctxSize), note);
      Keep(session, disk, prompt, note);
    }
  }

  /** The failing input: three tokens of prompt and one of reply. */
  lemma ReplyIsRefused(note: Note)
    requires Keepable(note)
    ensures var s := Saved(1024, None, [5, 6, 7, 8], 0, [0]);
            |Payload(s)| < TWO_TO_THE_64 && |FileBytes(EntryOf(s, [5, 6, 7], note))| >= FILE_HEADER_BYTES
            && LoadKvc(IsText, FileBytes(EntryOf(s, [5, 6, 7], note))).None?
  {
    StoredReply(Saved(1024, None, [5, 6, 7, 8], 0, [0]), [5, 6, 7], 1, note);
  }
}
