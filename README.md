# Face-swap service: a Dafny model of the `/swap` decision logic

The service takes two uploaded images and sends them to a hosted face-swap
model. It caches the result under a key built from the digests of the two
compressed images, and it answers with the path of the composited image. This
project models the part of `main.py` that makes decisions. It does not model
the libraries that part calls.

- `Strings` (`strings.dfy`): ASCII lower-casing, prefix and suffix tests, and
  the last occurrence of a character. These are the pieces of Python's
  `str.lower`, `startswith`, `endswith` and `rsplit(c, 1)` that the service
  uses.
- `Uploads` (`uploads.dfy`): `allowed_file` and `validate_file`. Existence is
  membership in a set of existing paths. The module also holds POSIX
  `os.path.join` and the name a temporary upload file is given.
- `RemoteSwap` (`remote_swap.dfy`): the early-return chain of `face_swap`. The
  model call, the filesystem and the image save are oracle inputs, so the
  chain is a total function from their answers to the result string.
- `SwapEndpoint` (`swap_endpoint.dfy`): the `/swap` handler. It validates in
  order (400), builds the cache key `digest(source) + ":" + digest(dest)`,
  looks the key up in the cache and updates it. It turns `face_swap`'s string
  into a 500 or a cached 200.
  - `Handle` is the handler as a function of the cache before the request.
  - The class `SwapService` holds the process-wide cache as a `map` field. Its
    method `Swap` follows the handler step by step and is proved equal to
    `Handle`.
  - SHA-256 and `compress_image` are function-valued fields of `Config`.
    Digests are 64 lower-case hex characters.
  - Everything a cache miss learns from outside is a `MissEnv` value: the
    temporary directory, the uuid tokens, the existing paths, the model's reply
    and the save's success.

Four behaviours of the code are reproduced on purpose:
- A model call that returns nothing, or a path that does not exist, yields
  `"Face swap failed"`. The string reads like a failure, but the handler's
  failure test (main.py:153) does not look for it, so it is cached and served
  as `/Face swap failed` with status 200.
- The handler treats any result that starts with `Error` as a failure. A
  successful save under an `OUTPUT_FOLDER` whose name starts with `Error` is
  therefore answered with 500 and not cached.
- `face_swap` is decorated with `@retry(tries=3, delay=2, backoff=2)`
  (main.py:83) and its docstring speaks of retry logic (main.py:85). The
  decorator never sees an exception, though: the body catches every exception
  itself (main.py:106-107). A raised exception becomes `"Error: <message>"` at
  once. The model has no retries.
- Inside the handler, `face_swap` can never answer `"Invalid input files"`.
  The two temporary files exist, and they keep an extension that passed
  `allowed_file`, which `validate_file` then accepts.

## Model

| member | source | states |
|---|---|---|
| `Strings.Lower` | main.py:28 | the lower-cased string has the same length, and each character is the ASCII lower case of the original one |
| `Strings.LastIndexOf` | main.py:28 | the result is -1 or a position holding the character, and no later position holds it (where `rsplit` splits) |
| `Uploads.Extension` | main.py:28 | the second part of `rsplit('.', 1)` contains no '.', is a suffix of the name, and is preceded by a '.' |
| `Uploads.AllowedFileSplit` | main.py:26-28 | for `base + "." + ext` with no '.' in `ext`, `allowed_file` holds exactly when lower-cased `ext` is png, jpg or jpeg, whatever `base` is |
| `Uploads.AllowedFileIgnoresCase` | main.py:28 | `"a.PNG"` is accepted |
| `Uploads.AllowedFileEmptyStem` | main.py:28 | `".png"` is accepted |
| `Uploads.AllowedFileLastExtensionOnly` | main.py:28 | `"a.png.gif"` is refused: only the text after the last '.' counts |
| `Uploads.AllowedFileEmptyExtension` | main.py:28 | `"a."` is refused |
| `Uploads.AllowedFileNoDot` | main.py:28 | `"png"` is refused: a name without '.' never passes |
| `Uploads.AllowedFileIffImageSuffix` | main.py:26-36 | `allowed_file` and the suffix test of `validate_file` accept exactly the same names |
| `Uploads.ValidateFileIsExistingAndAllowed` | main.py:30-36 | `validate_file` is false for a missing path; for an existing one it is true exactly when `allowed_file` accepts the path |
| `Uploads.JoinPath` | main.py:142-143 | the joined path ends with the file name and, for a relative name, starts with the directory |
| `Uploads.TempPathPassesValidation` | main.py:140-143 | a temporary file named after an upload that passed `allowed_file` passes `validate_file` once it exists, for any directory, prefix and token |
| `RemoteSwap.OutputName` | main.py:100 | the output name starts with `face_swap_` and ends with `.png` |
| `RemoteSwap.SaveOutputImage` | main.py:70-81 | a successful save returns a non-empty path ending in the output name; a failed one returns "" |
| `RemoteSwap.InvalidInputsSkipRemote` | main.py:87-88 | when either input fails `validate_file` the result is `"Invalid input files"`, whatever the model and the save would have done |
| `RemoteSwap.FaceSwapAfterValidation` | main.py:90-107 | with valid inputs: an exception gives `"Error: " + message`, a falsy or missing result `"Face swap failed"`, a failed save `"Failed to save output"`, otherwise the saved path; never `"Invalid input files"` |
| `RemoteSwap.FaceSwapResultKinds` | main.py:84-107 | every result is one of the three fixed failure strings, the error report of a raised exception, or the output path |
| `RemoteSwap.FaceSwapSucceedsIff` | main.py:99-103 | the result is the output path exactly when both inputs are valid, the model returned an existing path and the save succeeded (output folder not starting with `Error`) |
| `RemoteSwap.OutputPathNotErrorPrefixed` | main.py:100-101 | an output path starts with `Error` only if the output folder does |
| `RemoteSwap.OutputPathUnderErrorFolder` | main.py:16 | under an output folder starting with `Error`, every output path starts with `Error` too |
| `RemoteSwap.OutputPathIsNotAFailure` | main.py:153 | under an output folder not starting with `Error`, an output path does not start with `Error` and differs from every fixed failure string |
| `SwapEndpoint.DigestHasNoColon` | main.py:38-40 | a hex digest never contains ':' |
| `SwapEndpoint.CacheKey` | main.py:131 | the key is 129 characters long: the source digest, a ':' at position 64 that is the key's only ':', then the destination digest |
| `SwapEndpoint.CacheKeyInjective` | main.py:131 | two keys are equal exactly when both their digests are |
| `SwapEndpoint.SameKeyIffSameDigests` | main.py:127-131 | two requests share a key exactly when their compressed sources, and their compressed destinations, have equal digests |
| `SwapEndpoint.CacheKeyOrderSensitive` | main.py:131 | swapping source and destination keeps the key only when both have the same digest |
| `SwapEndpoint.SwapService.constructor` | main.py:24 | the cache starts empty |
| `SwapEndpoint.SwapService.Swap` | main.py:114-161 | the response and the new cache are those of `Handle` applied to the old cache |
| `SwapEndpoint.RepeatRequest` | main.py:133-161 | after a 200, the identical request gets the identical response; the cache then holds the first result under the request's key |
| `SwapEndpoint.AcceptedUploadsPassValidation` | main.py:140-149 | both temporary files of accepted uploads pass `validate_file` while `face_swap` runs |
| `SwapEndpoint.MissResultOfAcceptedUploads` | main.py:139-152 | on a miss, `face_swap`'s result is decided by the model's reply and the save, and is never `"Invalid input files"` |
| `SwapEndpoint.BadRequestIff` | main.py:118-122 | status 400 exactly when a filename is empty or not allowed; an empty filename is reported first with "No file selected", otherwise a disallowed one with "Invalid file format. Only PNG, JPG, JPEG allowed"; a 400 leaves the cache unchanged and does not depend on contents or on anything of a miss |
| `SwapEndpoint.HitServesCachedEntry` | main.py:134-136 | on a hit the response is "/" + the cached value, the cache is unchanged, and the model's reply plays no part |
| `SwapEndpoint.CacheGrowsOnlyByServedResult` | main.py:152-161 | every existing entry is kept; a new entry has the request's key and is what the 200 returns; any other response leaves the cache unchanged |
| `SwapEndpoint.SecondRequestIsServedFromCache` | main.py:131-161 | after a 200 the cache maps the request's key to the returned path, and repeating the request returns the same response and cache whatever happens around it |
| `SwapEndpoint.HandlerNeverReportsInvalidInputs` | main.py:140-153 | the handler never answers 500 with `"Invalid input files"` |
| `SwapEndpoint.ErrorReportIsFailure` | main.py:153 | `"Error: " + message` is always reported as a failure |
| `SwapEndpoint.FaceSwapFailedIsNotReported` | main.py:153 | `"Face swap failed"` is not reported as a failure |
| `SwapEndpoint.MissServerErrorIff` | main.py:152-161 | on a miss, with an output folder not starting with `Error`: status 500 exactly when the model raised, or returned an existing path whose save failed; a 500 leaves the cache unchanged; otherwise the result is stored under the key |
| `SwapEndpoint.FaceSwapFailedIsCached` | main.py:105 | a miss where the model returns nothing gives 200 with `/Face swap failed` and caches `"Face swap failed"` |
| `SwapEndpoint.SuccessfulSwapIsCached` | main.py:99-103 | with an output folder not starting with `Error`, a miss where the model returns an existing path and the save succeeds gives 200 with "/" + the output path, cached under the key |
| `SwapEndpoint.ErrorNamedOutputFolderReportsSuccessAsFailure` | main.py:16 | with an output folder starting with `Error`, a successful save is answered with 500 and not cached |

## Left out

- `compress_image` is an opaque function from bytes to bytes (`Config.compress`). Its PIL decode, resize and re-encode, and its fallback to the original bytes, are not modelled.
- `enhance_image` and the body of `save_output_image` are not modelled. Creating the output directory, opening, converting and saving the image are one success flag, `MissEnv.saveOk`. Sharpening is not part of that flag: `enhance_image` swallows its own exceptions (main.py:67-68), so it never turns a save into "".
- SHA-256 is an opaque function to 64-character lower-case hex strings (`Config.hash`). The digest itself is not computed.
- The hosted model is a `RemoteReply` value: an exception with its message, or a returned value. A returned `None` is the empty string. A truthy result that `os.path.exists` rejects (a tuple, a list, a dict, a float) raises `TypeError` at main.py:99; that exception is caught at main.py:106-107, so such a reply is a `Raised` reply. Other truthy non-string results (an int or bool, read as a file descriptor, or `bytes`, read as a path) do not raise there and are outside the model. The face indices (always 1) and the client construction are not modelled; an exception from either is a `Raised` reply.
- The cache's one-hour expiry and its limit of 100 entries are not modelled. Only lookup and insert on a `map` are, because expiry and eviction live in `cachetools`, which is not part of this model. The expiry race between `cache_key in cache` and `cache[cache_key]` is left out with them.
- The `@retry` decorator is not modelled: `face_swap` catches every exception itself, so the decorator never sees one.
- Request interleaving is not modelled. Two concurrent requests for the same uncached pair both call the model; the model handles one request at a time.
- FastAPI routing and the `/health` route are not modelled. Neither is the reading of multipart uploads: an upload is a filename (a missing one is "") and its content.
- Creating and removing the temporary directory, and the startup directory creation, are not modelled. Writing the two temporary files is assumed to succeed: they exist while `face_swap` runs. A failed write raises out of the handler, and that is not modelled.
- `uuid.uuid4().hex` tokens are inputs (`MissEnv`). The temporary directory's name is an input too.
- `Strings.Lower`: only ASCII letters are lower-cased, while Python's `str.lower` also maps other characters. No other character lower-cases to '.', 'p', 'n', 'g', 'j' or 'e', so both validators give the same answers as the source.
