/** The `POST /swap` handler: validation of the two uploads, the cache key
    built from the digests of the compressed contents, the process-wide result
    cache, and the classification of face_swap's result into an error response
    or a cached success. SHA-256 and image compression are opaque functions of
    the service's configuration; everything about one cache miss that comes
    from outside (temporary directory, random tokens, filesystem, model, save)
    is a `MissEnv`. */
module SwapEndpoint {
  import opened Strings
  import opened Uploads
  import opened RemoteSwap

  newtype byte = x: int | 0 <= x < 256
  type Bytes = seq<byte>

  const HEX_DIGITS := "0123456789abcdef"
  const DIGEST_LENGTH := 64

  /** What `hexdigest()` of SHA-256 looks like: 64 lower-case hex digits. */
  predicate IsHexDigest(s: string) {
    |s| == DIGEST_LENGTH && forall i :: 0 <= i < |s| ==> s[i] in HEX_DIGITS
  }

  type Digest = s: string | IsHexDigest(s)
    witness seq(DIGEST_LENGTH, _ => '0')

  /** The opaque parts of the service: the digest function, compress_image
      (bytes to bytes) and OUTPUT_FOLDER. */
  datatype Config = Config(hash: Bytes -> Digest, compress: Bytes -> Bytes, outputFolder: string)

  /** An uploaded file; a missing filename is the empty string. */
  datatype Upload = Upload(filename: string, content: Bytes)

  /** Everything a cache miss learns from outside: the temporary directory,
      the three uuid4 hex tokens (source file, destination file, output image),
      the paths that exist besides the two temporary files, what the model
      call did, and whether the save of its result succeeded. */
  datatype MissEnv = MissEnv(tempDir: string, sourceToken: string, destToken: string, outputToken: string,
                             existing: set<string>, reply: RemoteReply, saveOk: bool)

  /** The three response shapes: `{"result_image": ...}` with 200, and
      `{"error": ...}` with 400 or 500. */
  datatype Response = Ok(resultImage: string) | BadRequest(error: string) | ServerError(error: string) {
    function Status(): int {
      match this
      case Ok(_) => 200
      case BadRequest(_) => 400
      case ServerError(_) => 500
    }
  }

  /** A response together with the cache after the request. */
  datatype Handled = Handled(response: Response, cache: map<string, string>)

  const NO_FILE_SELECTED := "No file selected"
  const INVALID_FILE_FORMAT := "Invalid file format. Only PNG, JPG, JPEG allowed"

  /** A hex digest never contains the ':' that separates the two halves of a key. */
  lemma DigestHasNoColon(d: Digest)
    ensures ':' !in d
  {
    forall i | 0 <= i < |d| ensures d[i] != ':' {
      assert d[i] in HEX_DIGITS;
    }
  }

  /** The cache key `f"{source}:{dest}"`: the source digest, then the only ':'
      of the key, then the destination digest. */
  function CacheKey(sourceDigest: Digest, destDigest: Digest): (key: string)
    ensures |key| == 2 * DIGEST_LENGTH + 1 && key[DIGEST_LENGTH] == ':'
    ensures key[..DIGEST_LENGTH] == sourceDigest && key[DIGEST_LENGTH + 1..] == destDigest
    ensures forall i :: 0 <= i < |key| && i != DIGEST_LENGTH ==> key[i] != ':'
  {
    DigestHasNoColon(sourceDigest);
    DigestHasNoColon(destDigest);
    var key := sourceDigest + ":" + destDigest;
    assert forall i :: 0 <= i < DIGEST_LENGTH ==> key[i] == sourceDigest[i];
    assert forall i :: DIGEST_LENGTH < i < |key| ==> key[i] == destDigest[i - DIGEST_LENGTH - 1];
    key
  }

  /** The key of a request: the digests of both compressed contents, source first. */
  function RequestKey(cfg: Config, source: Bytes, dest: Bytes): string {
    CacheKey(cfg.hash(cfg.compress(source)), cfg.hash(cfg.compress(dest)))
  }

  /** The results swap_faces reports as a 500 rather than caching. */
  predicate IsReportedFailure(result: string) {
    StartsWith(result, "Error") || result == INVALID_INPUT_FILES || result == FAILED_TO_SAVE_OUTPUT
  }

  /** Where an accepted upload is written in the temporary directory. */
  function SourcePath(source: Upload, env: MissEnv): string
    requires '.' in source.filename
  {
    JoinPath(env.tempDir, TempFileName("source_", env.sourceToken, source.filename))
  }

  function DestPath(dest: Upload, env: MissEnv): string
    requires '.' in dest.filename
  {
    JoinPath(env.tempDir, TempFileName("dest_", env.destToken, dest.filename))
  }

  /** The paths that exist while face_swap runs: the two written temporary files and the rest. */
  function ExistingDuringSwap(source: Upload, dest: Upload, env: MissEnv): set<string>
    requires '.' in source.filename && '.' in dest.filename
  {
    env.existing + {SourcePath(source, env), DestPath(dest, env)}
  }

  /** What face_swap returns on a cache miss. */
  function MissResult(cfg: Config, source: Upload, dest: Upload, env: MissEnv): string
    requires '.' in source.filename && '.' in dest.filename
  {
    FaceSwap(SourcePath(source, env), DestPath(dest, env), ExistingDuringSwap(source, dest, env),
             env.reply, cfg.outputFolder, env.outputToken, env.saveOk)
  }

  /** swap_faces as a function of the cache before the request: the response
      and the cache after it. */
  function Handle(cache: map<string, string>, cfg: Config, source: Upload, dest: Upload, env: MissEnv): Handled {
    if source.filename == "" || dest.filename == "" then
      Handled(BadRequest(NO_FILE_SELECTED), cache)
    else if !(AllowedFile(source.filename) && AllowedFile(dest.filename)) then
      Handled(BadRequest(INVALID_FILE_FORMAT), cache)
    else
      var key := RequestKey(cfg, source.content, dest.content);
      if key in cache then
        Handled(Ok("/" + cache[key]), cache)
      else
        var result := MissResult(cfg, source, dest, env);
        if IsReportedFailure(result) then Handled(ServerError(result), cache)
        else Handled(Ok("/" + result), cache[key := result])
  }

  /** The service process: its configuration and the module-level cache. */
  class SwapService {
    const cfg: Config
    var cache: map<string, string>

    constructor (cfg: Config)
      ensures this.cfg == cfg && cache == map[]
    {
      this.cfg := cfg;
      cache := map[];
    }

    /** The `/swap` route. */
    method Swap(source: Upload, dest: Upload, env: MissEnv) returns (response: Response)
      modifies this
      ensures Handled(response, cache) == Handle(old(cache), cfg, source, dest, env)
    {
      if source.filename == "" || dest.filename == "" {
        return BadRequest(NO_FILE_SELECTED);
      }
      if !(AllowedFile(source.filename) && AllowedFile(dest.filename)) {
        return BadRequest(INVALID_FILE_FORMAT);
      }
      var sourceContent := cfg.compress(source.content);
      var destContent := cfg.compress(dest.content);
      var key := CacheKey(cfg.hash(sourceContent), cfg.hash(destContent));
      if key in cache {
        return Ok("/" + cache[key]);
      }
      var sourcePath := JoinPath(env.tempDir, TempFileName("source_", env.sourceToken, source.filename));
      var destPath := JoinPath(env.tempDir, TempFileName("dest_", env.destToken, dest.filename));
      var existing := env.existing + {sourcePath, destPath};
      var result := FaceSwap(sourcePath, destPath, existing, env.reply, cfg.outputFolder, env.outputToken, env.saveOk);
      if IsReportedFailure(result) {
        return ServerError(result);
      }
      cache := cache[key := result];
      response := Ok("/" + result);
    }
  }

  /** Two identical requests in a row: whatever the second miss environment,
      a 200 is answered the same way again from the cache. */
  method RepeatRequest(service: SwapService, source: Upload, dest: Upload, env1: MissEnv, env2: MissEnv)
    returns (first: Response, second: Response)
    modifies service
    ensures first.Ok? ==> second == first
    ensures first.Ok? ==>
      (|first.resultImage| >= 1
       && service.cache == old(service.cache)[RequestKey(service.cfg, source.content, dest.content) := first.resultImage[1..]])
  {
    first := service.Swap(source, dest, env1);
    second := service.Swap(source, dest, env2);
    if first.Ok? {
      SecondRequestIsServedFromCache(old(service.cache), service.cfg, source, dest, env1, env2);
    }
  }

  /** The temporary files of accepted uploads pass validate_file while face_swap runs. */
  lemma AcceptedUploadsPassValidation(source: Upload, dest: Upload, env: MissEnv)
    requires AllowedFile(source.filename) && AllowedFile(dest.filename)
    ensures ValidateFile(SourcePath(source, env), ExistingDuringSwap(source, dest, env))
    ensures ValidateFile(DestPath(dest, env), ExistingDuringSwap(source, dest, env))
  {
    var existing := ExistingDuringSwap(source, dest, env);
    TempPathPassesValidation(env.tempDir, "source_", env.sourceToken, source.filename, existing);
    TempPathPassesValidation(env.tempDir, "dest_", env.destToken, dest.filename, existing);
  }

  /** On a miss for accepted uploads, face_swap's result is decided by what the
      model and the save did, and is never "Invalid input files". */
  lemma MissResultOfAcceptedUploads(cfg: Config, source: Upload, dest: Upload, env: MissEnv)
    requires AllowedFile(source.filename) && AllowedFile(dest.filename)
    ensures var r := MissResult(cfg, source, dest, env);
      var existing := ExistingDuringSwap(source, dest, env);
      && r != INVALID_INPUT_FILES
      && (env.reply.Raised? ==> r == ERROR_PREFIX + env.reply.message)
      && (env.reply.Returned? && (env.reply.result == "" || env.reply.result !in existing) ==> r == FACE_SWAP_FAILED)
      && (env.reply.Returned? && env.reply.result != "" && env.reply.result in existing && !env.saveOk ==> r == FAILED_TO_SAVE_OUTPUT)
      && ((env.reply.Returned? && env.reply.result != "" && env.reply.result in existing && env.saveOk)
            ==> r == OutputPath(cfg.outputFolder, env.outputToken))
  {
    AcceptedUploadsPassValidation(source, dest, env);
    FaceSwapAfterValidation(SourcePath(source, env), DestPath(dest, env), ExistingDuringSwap(source, dest, env),
                            env.reply, cfg.outputFolder, env.outputToken, env.saveOk);
  }

  /** Two keys are equal exactly when both digests are: the ':' sits at a
      fixed place and no digest contains one. */
  lemma CacheKeyInjective(a: Digest, b: Digest, c: Digest, d: Digest)
    ensures CacheKey(a, b) == CacheKey(c, d) <==> a == c && b == d
  {
    if CacheKey(a, b) == CacheKey(c, d) {
      var k1, k2 := CacheKey(a, b), CacheKey(c, d);
      assert a == k1[..DIGEST_LENGTH] == k2[..DIGEST_LENGTH] == c;
      assert b == k1[DIGEST_LENGTH + 1..] == k2[DIGEST_LENGTH + 1..] == d;
    }
  }

  /** Two requests share a cache entry exactly when both compressed contents
      have the same digests, position by position. */
  lemma SameKeyIffSameDigests(cfg: Config, source1: Bytes, dest1: Bytes, source2: Bytes, dest2: Bytes)
    ensures RequestKey(cfg, source1, dest1) == RequestKey(cfg, source2, dest2)
        <==> (cfg.hash(cfg.compress(source1)) == cfg.hash(cfg.compress(source2))
              && cfg.hash(cfg.compress(dest1)) == cfg.hash(cfg.compress(dest2)))
  {
    CacheKeyInjective(cfg.hash(cfg.compress(source1)), cfg.hash(cfg.compress(dest1)),
                      cfg.hash(cfg.compress(source2)), cfg.hash(cfg.compress(dest2)));
  }

  /** The key is order-sensitive: swapping source and destination keeps the key
      only when both compress to contents with the same digest. */
  lemma CacheKeyOrderSensitive(cfg: Config, a: Bytes, b: Bytes)
    ensures RequestKey(cfg, a, b) == RequestKey(cfg, b, a) <==> cfg.hash(cfg.compress(a)) == cfg.hash(cfg.compress(b))
  {
    SameKeyIffSameDigests(cfg, a, b, b, a);
  }

  /** A 400 happens exactly when a filename is empty or not allowed; an empty
      filename is reported first, a disallowed one with the format message;
      neither reads the contents, consults the
      cache key or changes the cache. */
  lemma BadRequestIff(cache: map<string, string>, cfg: Config, source: Upload, dest: Upload, env: MissEnv,
                      sourceContent: Bytes, destContent: Bytes, env': MissEnv)
    ensures var h := Handle(cache, cfg, source, dest, env);
      && (h.response.Status() == 400 <==>
            || source.filename == "" || dest.filename == ""
            || !AllowedFile(source.filename) || !AllowedFile(dest.filename))
      && (source.filename == "" || dest.filename == "" ==> h.response == BadRequest(NO_FILE_SELECTED))
      && ((source.filename != "" && dest.filename != "" && !(AllowedFile(source.filename) && AllowedFile(dest.filename)))
            ==> h.response == BadRequest(INVALID_FILE_FORMAT))
      && (h.response.BadRequest? ==>
            && h.cache == cache
            && h == Handle(cache, cfg, source.(content := sourceContent), dest.(content := destContent), env'))
  {
  }

  /** On a hit the cached path is served, the cache is unchanged, and nothing
      of the miss environment (the model in particular) plays a part. */
  lemma HitServesCachedEntry(cache: map<string, string>, cfg: Config, source: Upload, dest: Upload, env: MissEnv, env': MissEnv)
    requires AllowedFile(source.filename) && AllowedFile(dest.filename)
    requires RequestKey(cfg, source.content, dest.content) in cache
    ensures Handle(cache, cfg, source, dest, env) == Handle(cache, cfg, source, dest, env')
         == Handled(Ok("/" + cache[RequestKey(cfg, source.content, dest.content)]), cache)
  {
  }

  /** The cache only ever gains the request's own key, and only together with
      a 200 that returns what was stored; every other entry is kept. */
  lemma CacheGrowsOnlyByServedResult(cache: map<string, string>, cfg: Config, source: Upload, dest: Upload, env: MissEnv)
    ensures var h := Handle(cache, cfg, source, dest, env);
      && (forall k :: k in cache ==> k in h.cache && h.cache[k] == cache[k])
      && (forall k :: k in h.cache && k !in cache ==>
            && k == RequestKey(cfg, source.content, dest.content)
            && h.response == Ok("/" + h.cache[k]))
      && (!h.response.Ok? ==> h.cache == cache)
  {
  }

  /** After a 200, the identical request is answered identically from the
      cache, whatever happens around it, and the cache stays as it is. */
  lemma SecondRequestIsServedFromCache(cache: map<string, string>, cfg: Config, source: Upload, dest: Upload,
                                       env1: MissEnv, env2: MissEnv)
    ensures var h := Handle(cache, cfg, source, dest, env1);
      h.response.Ok? ==>
        && |h.response.resultImage| >= 1
        && h.cache == cache[RequestKey(cfg, source.content, dest.content) := h.response.resultImage[1..]]
        && Handle(h.cache, cfg, source, dest, env2) == h
  {
    var key := RequestKey(cfg, source.content, dest.content);
    var h := Handle(cache, cfg, source, dest, env1);
    if !h.response.Ok? {
      return;
    }
    assert key in h.cache;
    assert ("/" + h.cache[key])[1..] == h.cache[key];
    if key in cache {
      assert cache[key := cache[key]] == cache;
    }
  }

  /** Inside the handler face_swap never finds its inputs invalid: the two
      temporary files exist and keep an allowed extension. */
  lemma HandlerNeverReportsInvalidInputs(cache: map<string, string>, cfg: Config, source: Upload, dest: Upload, env: MissEnv)
    ensures Handle(cache, cfg, source, dest, env).response != ServerError(INVALID_INPUT_FILES)
  {
    var h := Handle(cache, cfg, source, dest, env);
    if source.filename != "" && dest.filename != "" && AllowedFile(source.filename) && AllowedFile(dest.filename) {
      var key := RequestKey(cfg, source.content, dest.content);
      if key !in cache {
        MissResultOfAcceptedUploads(cfg, source, dest, env);
        var result := MissResult(cfg, source, dest, env);
        assert h.response == ServerError(result) || h.response == Ok("/" + result);
      }
    }
  }

  /** "Error: " followed by anything is reported as a failure. */
  lemma ErrorReportIsFailure(message: string)
    ensures IsReportedFailure(ERROR_PREFIX + message)
  {
  }

  /** "Face swap failed" is not among the results reported as failures. */
  lemma FaceSwapFailedIsNotReported()
    ensures !IsReportedFailure(FACE_SWAP_FAILED)
  {
    assert FACE_SWAP_FAILED[0] != 'E';
  }

  /** On a miss (with an output folder that does not start with "Error") the
      handler answers 500 exactly when the model call raised or the save of an
      existing result failed; otherwise the result is cached and served. */
  lemma MissServerErrorIff(cache: map<string, string>, cfg: Config, source: Upload, dest: Upload, env: MissEnv)
    requires AllowedFile(source.filename) && AllowedFile(dest.filename)
    requires RequestKey(cfg, source.content, dest.content) !in cache
    requires !StartsWith(cfg.outputFolder, "Error")
    ensures var h := Handle(cache, cfg, source, dest, env);
      && (h.response.Status() == 500 <==>
            || env.reply.Raised?
            || (env.reply.result != "" && env.reply.result in ExistingDuringSwap(source, dest, env) && !env.saveOk))
      && (h.response.ServerError? ==> h.cache == cache)
      && (!h.response.ServerError? ==>
            (h.response.Ok?
             && h.cache == cache[RequestKey(cfg, source.content, dest.content) := MissResult(cfg, source, dest, env)]))
  {
    MissResultOfAcceptedUploads(cfg, source, dest, env);
    OutputPathIsNotAFailure(cfg.outputFolder, env.outputToken);
    FaceSwapFailedIsNotReported();
    if env.reply.Raised? {
      ErrorReportIsFailure(env.reply.message);
    }
  }

  /** "Face swap failed" is not one of the reported failures: a model call that
      returns nothing is cached and served with status 200. */
  lemma FaceSwapFailedIsCached(cache: map<string, string>, cfg: Config, source: Upload, dest: Upload, env: MissEnv)
    requires AllowedFile(source.filename) && AllowedFile(dest.filename)
    requires RequestKey(cfg, source.content, dest.content) !in cache
    requires env.reply == Returned("")
    ensures Handle(cache, cfg, source, dest, env)
         == Handled(Ok("/" + FACE_SWAP_FAILED), cache[RequestKey(cfg, source.content, dest.content) := FACE_SWAP_FAILED])
  {
    MissResultOfAcceptedUploads(cfg, source, dest, env);
    FaceSwapFailedIsNotReported();
  }

  /** A successful swap is cached under the request's key and served as "/" + its output path. */
  lemma SuccessfulSwapIsCached(cache: map<string, string>, cfg: Config, source: Upload, dest: Upload, env: MissEnv)
    requires AllowedFile(source.filename) && AllowedFile(dest.filename)
    requires RequestKey(cfg, source.content, dest.content) !in cache
    requires !StartsWith(cfg.outputFolder, "Error")
    requires env.reply.Returned? && env.reply.result != "" && env.reply.result in env.existing && env.saveOk
    ensures var path := OutputPath(cfg.outputFolder, env.outputToken);
      Handle(cache, cfg, source, dest, env) == Handled(Ok("/" + path), cache[RequestKey(cfg, source.content, dest.content) := path])
  {
    MissResultOfAcceptedUploads(cfg, source, dest, env);
    OutputPathIsNotAFailure(cfg.outputFolder, env.outputToken);
  }

  /** With an output folder whose name starts with "Error", a swap that
      succeeded and was saved is reported as a 500 and not cached. */
  lemma ErrorNamedOutputFolderReportsSuccessAsFailure(cache: map<string, string>, cfg: Config, source: Upload, dest: Upload, env: MissEnv)
    requires AllowedFile(source.filename) && AllowedFile(dest.filename)
    requires RequestKey(cfg, source.content, dest.content) !in cache
    requires StartsWith(cfg.outputFolder, "Error")
    requires env.reply.Returned? && env.reply.result != "" && env.reply.result in env.existing && env.saveOk
    ensures Handle(cache, cfg, source, dest, env) == Handled(ServerError(OutputPath(cfg.outputFolder, env.outputToken)), cache)
  {
    MissResultOfAcceptedUploads(cfg, source, dest, env);
    OutputPathUnderErrorFolder(cfg.outputFolder, env.outputToken);
  }
}
