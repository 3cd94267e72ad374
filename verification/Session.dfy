/** The session state machine: prefix reuse, suffix extension, rebuild, rewind and snapshots. */
module Session {
  import opened Wrappers
  import opened Utf8
  import opened LittleEndian
  import opened Snapshot
  import opened InferenceEngine
  import opened FloatBits

  type Tokens = seq<i32>

  /** `common_prefix_len` */
  function CommonPrefixLen(a: Tokens, b: Tokens): (n: nat)
    ensures n <= |a| && n <= |b| && a[..n] == b[..n]
    ensures n < |a| && n < |b| ==> a[n] != b[n]
    decreases |a|
  {
    if a == [] || b == [] || a[0] != b[0] then 0
    else
      var n := CommonPrefixLen(a[1..], b[1..]);
      assert a[..n + 1] == [a[0]] + a[1..][..n] && b[..n + 1] == [b[0]] + b[1..][..n];
      n + 1
  }

  function Zeros(n: nat): (z: Logits)
    ensures |z| == n && forall i :: 0 <= i < n ==> z[i] == 0
  {
    seq(n, _ => 0)
  }

  const PLACEHOLDER_LOGITS: nat := 256

  /** The last of the largest logits; zero when there are none. */
  ghost predicate IsArgmax(logits: Logits, k: nat) {
    if logits == [] then k == 0
    else k < |logits| && (forall j :: 0 <= j < |logits| ==> TotalKey(logits[j]) <= TotalKey(logits[k]))
         && (forall j :: k < j < |logits| ==> TotalKey(logits[j]) < TotalKey(logits[k]))
  }

  lemma ArgmaxUnique(logits: Logits, k: nat, m: nat)
    requires IsArgmax(logits, k) && IsArgmax(logits, m)
    ensures k == m
  {
    if logits != [] {
      var a, b := TotalKey(logits[k]), TotalKey(logits[m]);
      assert a <= b && b <= a;
    }
  }

  ghost function ArgmaxOf(logits: Logits): (k: nat)
    ensures IsArgmax(logits, k)
    decreases |logits|
  {
    if |logits| <= 1 then 0
    else
      var n := |logits| - 1;
      var k := ArgmaxOf(logits[..n]);
      assert forall j :: 0 <= j < n ==> logits[..n][j] == logits[j];
      if TotalKey(logits[k]) <= TotalKey(logits[n]) then n else k
  }

  /**
   No finite logit has a greater value than logit `k`; one of the same value stands before it, unless the
   two are the zeros, of which the positive one is taken. A positive infinity or a positive pattern that
   is no number beats all finite logits.
   */
  ghost predicate HasGreatestValue(logits: Logits, k: nat) {
    && k < |logits|
    && forall j :: 0 <= j < |logits| && Finite(logits[j]) ==>
         || 0x7f80_0000 <= logits[k] < 0x8000_0000
         || (Finite(logits[k]) && Decoded(logits[j]) < Decoded(logits[k]))
         || (Finite(logits[k]) && Decoded(logits[j]) == Decoded(logits[k])
             && (j <= k || (logits[j] == 0x8000_0000 && logits[k] == 0)))
  }

  lemma ArgmaxHasGreatestValue(logits: Logits, k: nat)
    requires IsArgmax(logits, k) && logits != []
    ensures HasGreatestValue(logits, k)
  {
    forall j | 0 <= j < |logits| && Finite(logits[j])
      ensures || 0x7f80_0000 <= logits[k] < 0x8000_0000
              || (Finite(logits[k]) && Decoded(logits[j]) < Decoded(logits[k]))
              || (Finite(logits[k]) && Decoded(logits[j]) == Decoded(logits[k])
                  && (j <= k || (logits[j] == 0x8000_0000 && logits[k] == 0)))
    {
      var x, y := logits[j], logits[k];
      assert TotalKey(x) <= TotalKey(y) && (j > k ==> TotalKey(x) < TotalKey(y));
      SignAside(y);
      if Finite(y) {
        KeyIsValue(x, y);
        KeyIsValue(y, x);
      } else {
        KeysOutside(x, y);
      }
    }
  }

  /** The token `argmax` makes of an index. */
  function AsToken(k: nat): (t: i32)
    ensures k < 0x8000_0000 ==> t == k
  {
    Signed(k % TWO_TO_THE_32)
  }

  /** The tokens after `n` greedy steps: a function of the tokens alone. */
  ghost function Greedy(e: Engine, tokens: Tokens, n: nat): (r: Tokens)
    ensures |r| == |tokens| + n
  {
    if n == 0 then tokens
    else
      var before := Greedy(e, tokens, n - 1);
      before + [AsToken(ArgmaxOf(Fresh(e, before).logits))]
  }

  /** Every greedy token is the index of a logit no finite one exceeds, at the tokens before it. */
  lemma GreedyTakesGreatest(e: Engine, tokens: Tokens, n: nat)
    ensures var logits, r := Fresh(e, Greedy(e, tokens, n)).logits, Greedy(e, tokens, n + 1);
            && r[..|tokens| + n] == Greedy(e, tokens, n)
            && (0 < |logits| < 0x8000_0000 ==> 0 <= r[|tokens| + n] && HasGreatestValue(logits, r[|tokens| + n]))
  {
    var logits := Fresh(e, Greedy(e, tokens, n)).logits;
    if 0 < |logits| < 0x8000_0000 {
      ArgmaxHasGreatestValue(logits, ArgmaxOf(logits));
    }
  }

  datatype SyncResult =
    | Synced(cached: nat, replay: nat, rebuilt: bool)
    | ContextExceeded(promptLen: nat, ctxSize: nat)

  class Session {
    const engine: Engine
    const kv: TransformerKv
    var ctxSize: nat
    var checkpoint: Tokens
    var logits: Logits
    var prefillBoundary: Option<nat>

    /** The live KV is that of the tokens, or empty. */
    ghost predicate KvMatches()
      reads this, kv
    {
      && (engine.reference.None? ==> kv.layers == [])
      && |kv.layers| <= engine.layerCount
      && (if checkpoint == [] then forall i :: 0 <= i < |kv.layers| ==> kv.layers[i] == []
          else kv.layers == Fresh(engine, checkpoint).kv)
    }

    /** Path independence: a session with tokens is in the state a fresh sync to them gives. */
    ghost predicate Sound()
      reads this, kv
    {
      engine.Valid() && KvMatches() && |logits| < TWO_TO_THE_32
      && (checkpoint != [] ==> logits == Fresh(engine, checkpoint).logits)
    }

    ghost predicate WithinContext()
      reads this
    {
      |checkpoint| < ctxSize < TWO_TO_THE_32
    }

    constructor (e: Engine, ctx: nat)
      requires e.Valid() && 0 < ctx
      ensures engine == e && ctxSize == ctx && checkpoint == [] && prefillBoundary == None
      ensures fresh(kv) && Sound() && logits == Zeros(256)
    {
      engine := e;
      kv := new TransformerKv();
      ctxSize := ctx;
      checkpoint := [];
      logits := Zeros(PLACEHOLDER_LOGITS);
      prefillBoundary := None;
    }

    /** `create` */
    static method Create(e: Engine, ctx: nat) returns (o: Option<Session>)
      requires e.Valid()
      ensures o.None? <==> ctx == 0
      ensures o.Some? ==> fresh(o.value) && fresh(o.value.kv) && o.value.Sound()
      ensures o.Some? ==> o.value.engine == e && o.value.ctxSize == ctx && o.value.checkpoint == []
    {
      if ctx == 0 {
        return None;
      }
      var s := new Session(e, ctx);
      o := Some(s);
    }

    method SetPrefillBoundary(boundary: Option<nat>)
      modifies this`prefillBoundary
      ensures prefillBoundary == if boundary == Some(0) then None else boundary
    {
      prefillBoundary := if boundary.Some? && boundary.value > 0 then boundary else None;
    }

    // -------------------------------------------------------------- rebuilding and extending

    method ResetLiveState()
      modifies this`checkpoint, kv
      ensures checkpoint == [] && kv.layers == Cleared(old(kv.layers))
    {
      checkpoint := [];
      kv.Clear();
    }

    /** From a cleared cache, a reference prefill ends where a fresh session's does. */
    lemma PrefillFromCleared(layers: seq<KvLayer>, tokens: Tokens)
      requires engine.Valid() && engine.reference.Some? && tokens != []
      requires |layers| <= engine.layerCount && forall i :: 0 <= i < |layers| ==> layers[i] == []
      ensures Feed(engine, layers, tokens, 0) == Fresh(engine, tokens)
      ensures |Fresh(engine, tokens).kv| <= engine.layerCount && |Fresh(engine, tokens).logits| < TWO_TO_THE_32
    {
      FeedFromCleared(engine, layers, tokens, 0);
      FeedLayers(engine, [], tokens, 0);
    }

    /** `rebuild_prompt_state` */
    method RebuildPromptState(prompt: Tokens)
      requires engine.Valid() && |kv.layers| <= engine.layerCount && (engine.reference.None? ==> kv.layers == [])
      modifies this`checkpoint, this`logits, kv
      ensures checkpoint == prompt && Sound()
      ensures prompt == [] ==> logits == Zeros(if engine.vocabSize < 1 then 1 else engine.vocabSize)
    {
      ResetLiveState();
      if prompt == [] {
        logits := Zeros(if engine.vocabSize < 1 then 1 else engine.vocabSize);
        return;
      }
      if engine.reference.Some? {
        PrefillFromCleared(kv.layers, prompt);
      }
      var o := TryReferencePrefill(engine, kv, prompt, 0);
      if o.Some? {
        checkpoint := prompt;
        logits := o.value;
        return;
      }
      checkpoint := prompt;
      kv.Clear();
      logits := InferLogits(engine, checkpoint);
    }

    /** What extending by a suffix does to a matching state. */
    lemma SuffixExtends(prompt: Tokens, cached: nat)
      requires engine.Valid() && engine.reference.Some? && 0 < cached < |prompt|
      ensures Feed(engine, Fresh(engine, prompt[..cached]).kv, prompt[cached..], cached) == Fresh(engine, prompt)
      ensures |Fresh(engine, prompt).kv| <= engine.layerCount && |Fresh(engine, prompt).logits| < TWO_TO_THE_32
    {
      FeedInParts(engine, [], prompt[..cached], prompt[cached..], 0);
      assert prompt[..cached] + prompt[cached..] == prompt;
      FeedLayers(engine, [], prompt, 0);
    }

    /** `extend_live_suffix` */
    method ExtendLiveSuffix(prompt: Tokens, cached: nat) returns (ok: bool)
      requires Sound() && 0 < cached <= |prompt| && checkpoint == prompt[..cached]
      modifies this`checkpoint, this`logits, kv
      ensures ok ==> checkpoint == prompt && Sound()
      ensures !ok ==> engine.reference.None? && checkpoint == old(checkpoint) && logits == old(logits) && kv.layers == old(kv.layers)
    {
      var suffix := prompt[cached..];
      if suffix == [] {
        assert prompt[..cached] == prompt;
        return true;
      }
      if engine.reference.Some? {
        SuffixExtends(prompt, cached);
      }
      var o := TryReferencePrefill(engine, kv, suffix, cached);
      if o.Some? {
        checkpoint := prompt;
        logits := o.value;
        return true;
      }
      ok := false;
    }

    // -------------------------------------------------------------- sync, decode, rewind, invalidate

    /** `prefill`, which `sync` calls: refuses a prompt that fills the context, else ends at the prompt. */
    method Sync(prompt: Tokens) returns (r: SyncResult)
      requires Sound()
      modifies this, kv
      ensures Sound() && ctxSize == old(ctxSize)
      ensures r.ContextExceeded? <==> |prompt| >= ctxSize
      ensures r.ContextExceeded? ==> r == ContextExceeded(|prompt|, ctxSize)
      ensures r.ContextExceeded? ==> checkpoint == old(checkpoint) && logits == old(logits) && kv.layers == old(kv.layers)
                                     && prefillBoundary == old(prefillBoundary)
      ensures r.Synced? ==> checkpoint == prompt && prefillBoundary == None
      ensures r.Synced? ==> r.cached + r.replay == |prompt| && (r.rebuilt <==> !(old(checkpoint) <= prompt))
      ensures r.Synced? ==> r.cached == if old(checkpoint) <= prompt then |old(checkpoint)| else 0
      ensures r.Synced? && prompt == [] ==> logits == old(logits)
    {
      if |prompt| >= ctxSize {
        return ContextExceeded(|prompt|, ctxSize);
      }
      var common := CommonPrefixLen(checkpoint, prompt);
      var rebuilt := common != |checkpoint|;
      assert rebuilt <==> !(checkpoint <= prompt);
      var cached := if rebuilt then 0 else common;
      var replay := |prompt| - cached;
      prefillBoundary := None;
      if rebuilt {
        ResetLiveState();
      }
      if replay == 0 {
        if checkpoint != prompt {
          RebuildPromptState(prompt);
        }
      } else if cached == 0 {
        RebuildPromptState(prompt);
      } else {
        assert checkpoint == prompt[..cached];
        var ok := ExtendLiveSuffix(prompt, cached);
        if !ok {
          RebuildPromptState(prompt);
        }
      }
      r := Synced(cached, replay, rebuilt);
    }

    /** `append_token_with_reference_fallback` */
    method AppendToken(token: i32)
      requires Sound()
      modifies this`checkpoint, this`logits, kv
      ensures checkpoint == old(checkpoint) + [token] && Sound()
    {
      ghost var prompt := checkpoint + [token];
      if engine.reference.Some? {
        AppendExtends(token);
      }
      var o := TryReferenceDecodeNext(engine, kv, token, |checkpoint|);
      if o.Some? {
        checkpoint := checkpoint + [token];
        logits := o.value;
        return;
      }
      RebuildPromptState(checkpoint + [token]);
    }

    lemma AppendExtends(token: i32)
      requires Sound() && engine.reference.Some?
      ensures Advance(engine, kv.layers, token, |checkpoint|) == Fresh(engine, checkpoint + [token])
      ensures |Fresh(engine, checkpoint + [token]).kv| <= engine.layerCount
      ensures |Fresh(engine, checkpoint + [token]).logits| < TWO_TO_THE_32
    {
      var prompt := checkpoint + [token];
      FeedLayers(engine, [], prompt, 0);
      assert prompt[..|checkpoint|] == checkpoint;
      if checkpoint == [] {
        GrownFromEmpty(kv.layers, engine.layerCount);
      }
    }

    /** `decode_next`: one more token, unless the context is full. */
    method DecodeNext(token: i32) returns (ok: bool)
      requires Sound()
      modifies this`checkpoint, this`logits, kv
      ensures Sound() && (ok <==> |old(checkpoint)| + 1 < ctxSize)
      ensures ok ==> checkpoint == old(checkpoint) + [token]
      ensures !ok ==> checkpoint == old(checkpoint) && logits == old(logits) && kv.layers == old(kv.layers)
    {
      if |checkpoint| + 1 >= ctxSize {
        return false;
      }
      AppendToken(token);
      ok := true;
    }

    method Rewind(pos: nat)
      requires Sound()
      modifies this`checkpoint, this`logits, kv
      ensures Sound() && checkpoint == old(checkpoint)[..if pos < |old(checkpoint)| then pos else |old(checkpoint)|]
    {
      RebuildPromptState(checkpoint[..if pos < |checkpoint| then pos else |checkpoint|]);
    }

    /** `invalidate`: the logits stay as they were. */
    method Invalidate()
      requires Sound()
      modifies this`checkpoint, kv
      ensures Sound() && checkpoint == []
    {
      checkpoint := [];
      kv.Clear();
    }

    // -------------------------------------------------------------- greedy generation

    method Argmax() returns (k: nat)
      ensures IsArgmax(logits, k)
      ensures logits != [] ==> HasGreatestValue(logits, k)
    {
      k := 0;
      for i := 0 to |logits|
        invariant if i == 0 then k == 0 else IsArgmax(logits[..i], k)
      {
        if i == 0 || TotalKey(logits[k]) <= TotalKey(logits[i]) {
          k := i;
        }
      }
      assert logits[..|logits|] == logits;
      if logits != [] {
        ArgmaxHasGreatestValue(logits, k);
      }
    }

    /** `step` tokens have been added to `start`, greedily if there was something to start from. */
    ghost predicate Generated(start: Tokens, step: nat)
      reads this
    {
      start <= checkpoint && |checkpoint| == |start| + step && (start != [] ==> checkpoint == Greedy(engine, start, step))
    }

    /** One step of greedy generation. */
    method GreedyStep(ghost start: Tokens, ghost step: nat) returns (o: Option<i32>)
      requires Sound() && Generated(start, step)
      modifies this`checkpoint, this`logits, kv
      ensures Sound() && (o.Some? <==> |old(checkpoint)| + 1 < ctxSize)
      ensures checkpoint == old(checkpoint) + if o.Some? then [o.value] else []
      ensures Generated(start, if o.Some? then step + 1 else step)
    {
      var k := Argmax();
      ArgmaxUnique(logits, k, ArgmaxOf(logits));
      var ok := DecodeNext(AsToken(k));
      o := if ok then Some(AsToken(k)) else None;
    }

    /** `generate_argmax_tokens`: decodes greedily until done or out of context. */
    method GenerateArgmaxTokens(maxTokens: nat) returns (o: Option<Tokens>)
      requires Sound() && |checkpoint| < ctxSize
      modifies this`checkpoint, this`logits, kv
      ensures Sound() && (o.Some? <==> |old(checkpoint)| + maxTokens < ctxSize)
      ensures o.Some? ==> checkpoint == old(checkpoint) + o.value
      ensures old(checkpoint) <= checkpoint
      ensures |checkpoint| == if o.Some? then |old(checkpoint)| + maxTokens else ctxSize - 1
      ensures old(checkpoint) != [] ==> checkpoint == Greedy(engine, old(checkpoint), |checkpoint| - |old(checkpoint)|)
    {
      o := GenerateFrom(checkpoint, maxTokens);
    }

    /** The loop of it; what has been generated are the tokens behind `start`. */
    method GenerateFrom(ghost start: Tokens, maxTokens: nat) returns (o: Option<Tokens>)
      requires Sound() && start == checkpoint && |checkpoint| < ctxSize
      modifies this`checkpoint, this`logits, kv
      ensures Sound() && (o.Some? <==> |start| + maxTokens < ctxSize)
      ensures Generated(start, if o.Some? then maxTokens else ctxSize - 1 - |start|)
      ensures o.Some? ==> checkpoint == start + o.value
    {
      var out := [];
      for step := 0 to maxTokens
        invariant Sound() && Generated(start, step) && checkpoint == start + out && |checkpoint| < ctxSize
      {
        var token := GreedyStep(start, step);
        if token.None? {
          return None;
        }
        out := out + [token.value];
      }
      o := Some(out);
    }

    // -------------------------------------------------------------- snapshots

    ghost function Image(): Saved
      reads this, kv
    {
      Saved(ctxSize, prefillBoundary, checkpoint, |kv.layers|, logits)
    }

    method Save() returns (bytes: seq<byte>)
      ensures bytes == Payload(Image())
    {
      bytes := SaveSnapshot(Saved(ctxSize, prefillBoundary, checkpoint, |kv.layers|, logits));
    }

    /** `rehydrate_live_state`: the KV is computed again from the tokens. */
    method RehydrateLiveState()
      requires engine.Valid() && |kv.layers| <= engine.layerCount && (engine.reference.None? ==> kv.layers == [])
      requires forall i :: 0 <= i < |kv.layers| ==> kv.layers[i] == []
      modifies this`logits, kv
      ensures KvMatches()
      ensures logits == if engine.reference.Some? && checkpoint != [] then Fresh(engine, checkpoint).logits else old(logits)
    {
      if checkpoint == [] {
        return;
      }
      if engine.reference.Some? {
        PrefillFromCleared(kv.layers, checkpoint);
      }
      var o := TryReferencePrefill(engine, kv, checkpoint, 0);
      if o.Some? {
        logits := o.value;
      }
    }

    /** `load_snapshot`: a payload, or failing that a bare list of tokens. */
    method Load(bytes: seq<byte>)
      requires engine.Valid() && |kv.layers| <= engine.layerCount && (engine.reference.None? ==> kv.layers == [])
      modifies this, kv
      ensures KvMatches()
      ensures Parse(bytes).Some? ==>
                var p := Parse(bytes).value;
                ctxSize == p.ctx && prefillBoundary == p.boundary && checkpoint == p.tokens
                && logits == if engine.reference.Some? && p.tokens != [] then Fresh(engine, p.tokens).logits else p.logits
      ensures Sound() <==>
                Parse(bytes).None? || engine.reference.Some? || Parse(bytes).value.tokens == []
                || Parse(bytes).value.logits == engine.stub(Parse(bytes).value.tokens)
      ensures Parse(bytes).None? ==> ctxSize == old(ctxSize) && prefillBoundary == old(prefillBoundary)
      ensures Parse(bytes).None? ==> checkpoint == TokensAt(bytes, 0, |bytes| / 4)
    {
      var loaded := TryParse(bytes);
      if loaded.Some? {
        ctxSize := loaded.value.ctx;
        prefillBoundary := loaded.value.boundary;
        checkpoint := loaded.value.tokens;
        logits := loaded.value.logits;
        kv.Clear();
        RehydrateLiveState();
        return;
      }
      var tokens := ReadTokens(bytes, 0, |bytes| / 4);
      checkpoint := tokens;
      kv.Clear();
      if checkpoint == [] {
        logits := Zeros(if engine.vocabSize < 1 then 1 else engine.vocabSize);
      } else {
        logits := InferLogits(engine, checkpoint);
        if engine.reference.Some? {
          PrefillFromCleared(kv.layers, checkpoint);
        }
      }
      RehydrateLiveState();
    }
  }

  // ---------------------------------------------------------------- whole runs

  datatype Op =
    | OpSync(prompt: Tokens)
    | OpDecode(token: i32)
    | OpGenerate(maxTokens: nat)
    | OpRewind(pos: nat)
    | OpInvalidate
    | OpBoundary(boundary: Option<nat>)
    | OpSave
    | OpRestore(k: nat)

  /** A session as its caller sees it: a context size and a list of tokens, and those that were saved. */
  datatype View = View(ctx: nat, tokens: Tokens, saved: seq<Mark>)
  datatype Mark = Mark(ctx: nat, tokens: Tokens)

  ghost predicate ViewValid(v: View) {
    |v.tokens| < v.ctx < TWO_TO_THE_32
    && forall m :: m in v.saved ==> |m.tokens| < m.ctx < TWO_TO_THE_32
  }

  /** What an operation does to the view; generation is greedy from known tokens. */
  ghost predicate Steps(e: Engine, v: View, op: Op, w: View) {
    match op
    case OpSync(prompt) => w == if |prompt| < v.ctx then v.(tokens := prompt) else v
    case OpDecode(token) => w == if |v.tokens| + 1 < v.ctx then v.(tokens := v.tokens + [token]) else v
    case OpGenerate(n) =>
      && w == v.(tokens := w.tokens)
      && v.tokens <= w.tokens && |w.tokens| == (if |v.tokens| + n < v.ctx then |v.tokens| + n else v.ctx - 1)
      && (v.tokens != [] ==> w.tokens == Greedy(e, v.tokens, |w.tokens| - |v.tokens|))
    case OpRewind(pos) => w == v.(tokens := v.tokens[..if pos < |v.tokens| then pos else |v.tokens|])
    case OpInvalidate => w == v.(tokens := [])
    case OpBoundary(_) => w == v
    case OpSave => w == v.(saved := v.saved + [Mark(v.ctx, v.tokens)])
    case OpRestore(k) => w == if k < |v.saved| then v.(ctx := v.saved[k].ctx, tokens := v.saved[k].tokens) else v
  }

  /** The bytes are a payload of these tokens, with the logits a fresh sync gives. */
  ghost predicate PayloadOf(e: Engine, bytes: seq<byte>, m: Mark) {
    var p := Parse(bytes);
    p.Some? && p.value.ctx == m.ctx && p.value.tokens == m.tokens
    && (m.tokens != [] ==> p.value.logits == Fresh(e, m.tokens).logits)
  }

  ghost predicate Represents(s: Session, files: seq<seq<byte>>, v: View)
    reads s, s.kv
  {
    && s.Sound() && v.ctx == s.ctxSize && v.tokens == s.checkpoint
    && |files| == |v.saved| && forall k :: 0 <= k < |files| ==> PayloadOf(s.engine, files[k], v.saved[k])
  }

  lemma SavedPayload(e: Engine, image: Saved)
    requires |image.tokens| < image.ctx < TWO_TO_THE_32 && |image.logits| < TWO_TO_THE_32
    requires image.tokens != [] ==> image.logits == Fresh(e, image.tokens).logits
    ensures PayloadOf(e, Payload(image), Mark(image.ctx, image.tokens))
  {
    SaveKeeps(image);
  }

  method DoSave(s: Session, files: seq<seq<byte>>, ghost v: View) returns (files': seq<seq<byte>>, ghost w: View)
    requires Represents(s, files, v) && ViewValid(v)
    ensures Represents(s, files', w) && ViewValid(w) && w == v.(saved := v.saved + [Mark(v.ctx, v.tokens)])
  {
    var bytes := s.Save();
    SavedPayload(s.engine, s.Image());
    files' := files + [bytes];
    w := v.(saved := v.saved + [Mark(v.ctx, v.tokens)]);
  }

  method DoRestore(s: Session, k: nat, files: seq<seq<byte>>, ghost v: View) returns (ghost w: View)
    requires Represents(s, files, v) && ViewValid(v)
    modifies s, s.kv
    ensures Represents(s, files, w) && ViewValid(w) && Steps(s.engine, v, OpRestore(k), w)
  {
    w := v;
    if k < |files| {
      assert PayloadOf(s.engine, files[k], v.saved[k]) && v.saved[k] in v.saved;
      w := v.(ctx := v.saved[k].ctx, tokens := v.saved[k].tokens);
      RestoreIsSound(s.engine, files[k], v.saved[k]);
      s.Load(files[k]);
    }
  }

  /** A saved payload satisfies what `Load` needs for a sound session. */
  lemma RestoreIsSound(e: Engine, bytes: seq<byte>, m: Mark)
    requires PayloadOf(e, bytes, m)
    ensures var p := Parse(bytes).value; e.reference.Some? || p.tokens == [] || p.logits == e.stub(p.tokens)
  {
  }

  /** One operation, as the server calls it. */
  method Do(s: Session, op: Op, files: seq<seq<byte>>, ghost v: View) returns (files': seq<seq<byte>>, ghost w: View)
    requires Represents(s, files, v) && ViewValid(v)
    modifies s, s.kv
    ensures Represents(s, files', w) && ViewValid(w) && Steps(s.engine, v, op, w)
  {
    files' := files;
    if op.OpSave? {
      files', w := DoSave(s, files, v);
    } else if op.OpRestore? {
      w := DoRestore(s, op.k, files, v);
    } else {
      DoLive(s, op);
      w := View(s.ctxSize, s.checkpoint, v.saved);
    }
  }

  predicate Live(op: Op) { !op.OpSave? && !op.OpRestore? }

  method DoGenerate(s: Session, n: nat)
    requires s.Sound() && s.WithinContext()
    modifies s, s.kv
    ensures s.Sound() && s.WithinContext() && s.ctxSize == old(s.ctxSize)
    ensures Steps(s.engine, View(s.ctxSize, old(s.checkpoint), []), OpGenerate(n), View(s.ctxSize, s.checkpoint, []))
  {
    var o := s.GenerateArgmaxTokens(n);
  }

  /** The operations that touch no snapshot. */
  method DoLive(s: Session, op: Op)
    requires s.Sound() && s.WithinContext() && Live(op)
    modifies s, s.kv
    ensures s.Sound() && s.WithinContext() && s.ctxSize == old(s.ctxSize)
    ensures Steps(s.engine, View(s.ctxSize, old(s.checkpoint), []), op, View(s.ctxSize, s.checkpoint, []))
  {
    match op {
      case OpSync(prompt) =>
        var r := s.Sync(prompt);
      case OpDecode(token) =>
        var ok := s.DecodeNext(token);
      case OpGenerate(n) =>
        DoGenerate(s, n);
      case OpRewind(pos) =>
        s.Rewind(pos);
      case OpInvalidate =>
        s.Invalidate();
      case OpBoundary(boundary) =>
        s.SetPrefillBoundary(boundary);
    }
  }

  /** Every step of the run in order. */
  ghost predicate RunSteps(e: Engine, ops: seq<Op>, views: seq<View>) {
    |views| == |ops| + 1 && forall i :: 0 <= i < |ops| ==> Steps(e, views[i], ops[i], views[i + 1])
  }

  /**
   Path independence over whole runs: after any operations a session with tokens has the logits and
   live KV of a fresh session synced once to the same tokens, and stays within its context.
   */
  method Run(e: Engine, ctx: nat, ops: seq<Op>) returns (s: Session, ghost views: seq<View>)
    requires e.Valid() && 0 < ctx < TWO_TO_THE_32
    ensures s.engine == e && RunSteps(e, ops, views) && views[0] == View(ctx, [], [])
    ensures s.ctxSize == views[|ops|].ctx && s.checkpoint == views[|ops|].tokens && |s.checkpoint| < s.ctxSize
    ensures s.checkpoint != [] ==> Step(s.kv.layers, s.logits) == Fresh(e, s.checkpoint)
  {
    s := new Session(e, ctx);
    var files := [];
    ghost var v := View(ctx, [], []);
    views := [v];
    for i := 0 to |ops|
      invariant s.engine == e && fresh(s) && fresh(s.kv)
      invariant |views| == i + 1 && views[0] == View(ctx, [], []) && views[i] == v
      invariant RunSteps(e, ops[..i], views)
      invariant Represents(s, files, v) && ViewValid(v)
    {
      ghost var w;
      files, w := Do(s, ops[i], files, v);
      views := views + [w];
      v := w;
    }
    assert ops[..|ops|] == ops;
  }

  // ---------------------------------------------------------------- stale logits

  /** An empty prompt leaves the logits of the tokens before it: they differ from a fresh session's. */
  method EmptyPromptKeepsLogits(e: Engine, ctx: nat, prompt: Tokens) returns (reused: Session, untouched: Session)
    requires e.Valid() && 0 < |prompt| < ctx && Fresh(e, prompt).logits != Zeros(PLACEHOLDER_LOGITS)
    ensures reused.checkpoint == untouched.checkpoint == [] && reused.logits != untouched.logits
  {
    reused := new Session(e, ctx);
    var first := reused.Sync(prompt);
    var second := reused.Sync([]);
    untouched := new Session(e, ctx);
    var third := untouched.Sync([]);
  }
}
