/** face_swap: the chain that turns what happened around one call to the
    hosted face-swap model into a result string. The model, the filesystem and
    the image save are oracles: `existing` is the set of paths that exist,
    `reply` is what the model call did, `saveOk` is whether opening, converting
    and writing the result image succeeded. */
module RemoteSwap {
  import opened Strings
  import opened Uploads

  const INVALID_INPUT_FILES := "Invalid input files"
  const FACE_SWAP_FAILED := "Face swap failed"
  const FAILED_TO_SAVE_OUTPUT := "Failed to save output"
  /** Prefix of the result reported for an exception, followed by its message. */
  const ERROR_PREFIX := "Error: "

  /** What the call to the model did: raised with a message, or returned a
      value; a returned None or empty value is the empty string. */
  datatype RemoteReply = Raised(message: string) | Returned(result: string)

  /** The name the result image is saved under: `f"face_swap_{token}.png"`. */
  function OutputName(token: string): (name: string)
    ensures StartsWith(name, "face_swap_") && EndsWith(name, ".png")
  {
    "face_swap_" + token + ".png"
  }

  /** save_output_image: the joined output path when the save succeeds, "" otherwise. */
  function SaveOutputImage(outputDir: string, outputName: string, ok: bool): (saved: string)
    ensures ok && outputName != "" ==> saved != "" && EndsWith(saved, outputName)
    ensures !ok ==> saved == ""
  {
    if ok then JoinPath(outputDir, outputName) else ""
  }

  /** face_swap on two local paths, with the model's face indices left at 1. */
  function FaceSwap(source: string, dest: string, existing: set<string>, reply: RemoteReply,
                    outputDir: string, outputToken: string, saveOk: bool): string
  {
    if !(ValidateFile(source, existing) && ValidateFile(dest, existing)) then INVALID_INPUT_FILES
    else match reply
      case Raised(message) => ERROR_PREFIX + message
      case Returned(result) =>
        if result != "" && result in existing then
          var finalPath := SaveOutputImage(outputDir, OutputName(outputToken), saveOk);
          if finalPath != "" then finalPath else FAILED_TO_SAVE_OUTPUT
        else FACE_SWAP_FAILED
  }

  /** Where a successful swap is saved. */
  function OutputPath(outputDir: string, outputToken: string): string {
    JoinPath(outputDir, OutputName(outputToken))
  }

  /** Invalid inputs give "Invalid input files" before the model is contacted:
      no answer of the model or of the save changes the result. */
  lemma InvalidInputsSkipRemote(source: string, dest: string, existing: set<string>,
                                reply: RemoteReply, outputDir: string, outputToken: string, saveOk: bool,
                                reply': RemoteReply, outputDir': string, outputToken': string, saveOk': bool)
    requires !ValidateFile(source, existing) || !ValidateFile(dest, existing)
    ensures FaceSwap(source, dest, existing, reply, outputDir, outputToken, saveOk) == INVALID_INPUT_FILES
    ensures FaceSwap(source, dest, existing, reply', outputDir', outputToken', saveOk') == INVALID_INPUT_FILES
  {
  }

  /** Every result is one of the three fixed failure strings, an error report,
      or the output path. */
  lemma FaceSwapResultKinds(source: string, dest: string, existing: set<string>, reply: RemoteReply,
                            outputDir: string, outputToken: string, saveOk: bool)
    ensures var r := FaceSwap(source, dest, existing, reply, outputDir, outputToken, saveOk);
      || r == INVALID_INPUT_FILES || r == FACE_SWAP_FAILED || r == FAILED_TO_SAVE_OUTPUT
      || (reply.Raised? && r == ERROR_PREFIX + reply.message)
      || r == OutputPath(outputDir, outputToken)
  {
  }

  /** Once both inputs are valid, what the model and the save did decides the
      result: an exception gives its error report, a missing or falsy result
      "Face swap failed", a failed save "Failed to save output", and otherwise
      the output path. "Invalid input files" cannot come out. */
  lemma FaceSwapAfterValidation(source: string, dest: string, existing: set<string>, reply: RemoteReply,
                                outputDir: string, outputToken: string, saveOk: bool)
    requires ValidateFile(source, existing) && ValidateFile(dest, existing)
    ensures var r := FaceSwap(source, dest, existing, reply, outputDir, outputToken, saveOk);
      && r != INVALID_INPUT_FILES
      && (reply.Raised? ==> r == ERROR_PREFIX + reply.message)
      && (reply.Returned? && (reply.result == "" || reply.result !in existing) ==> r == FACE_SWAP_FAILED)
      && (reply.Returned? && reply.result != "" && reply.result in existing && !saveOk ==> r == FAILED_TO_SAVE_OUTPUT)
      && (reply.Returned? && reply.result != "" && reply.result in existing && saveOk ==> r == OutputPath(outputDir, outputToken))
  {
    var r := FaceSwap(source, dest, existing, reply, outputDir, outputToken, saveOk);
    if reply.Raised? {
      assert r[0] == 'E' && INVALID_INPUT_FILES[0] == 'I';
    } else if reply.result != "" && reply.result in existing && saveOk {
      var path := OutputPath(outputDir, outputToken);
      assert EndsWith(path, ".png");
      assert path[|path| - 1] == 'g';
    }
  }

  /** An output path never starts with "Error" unless the output directory does. */
  lemma OutputPathNotErrorPrefixed(outputDir: string, outputToken: string)
    requires !StartsWith(outputDir, "Error")
    ensures !StartsWith(OutputPath(outputDir, outputToken), "Error")
  {
    var name := OutputName(outputToken);
    var path := OutputPath(outputDir, outputToken);
    assert name[0] == 'f';
    assert !StartsWith(name, "/");
    if |outputDir| >= 5 {
      StartsWithTransitive(path, outputDir, "Error");
    } else {
      var k := |outputDir|;
      if outputDir == [] || EndsWith(outputDir, "/") {
        assert path == outputDir + name;
        assert path[k] == name[0];
      } else {
        assert path == outputDir + "/" + name;
        assert path[k] == '/';
      }
      assert "Error"[k] != 'f' && "Error"[k] != '/';
      MismatchIsNotPrefix(path, "Error", k);
    }
  }

  /** An output folder whose name starts with "Error" gives output paths that do too. */
  lemma OutputPathUnderErrorFolder(outputDir: string, outputToken: string)
    requires StartsWith(outputDir, "Error")
    ensures StartsWith(OutputPath(outputDir, outputToken), "Error")
  {
    var name := OutputName(outputToken);
    assert name[0] == 'f';
    assert !StartsWith(name, "/");
    StartsWithTransitive(OutputPath(outputDir, outputToken), outputDir, "Error");
  }

  /** The output path is told apart from every failure report: it does not
      start with "Error" and ends with ".png", which no fixed failure string does. */
  lemma OutputPathIsNotAFailure(outputDir: string, outputToken: string)
    requires !StartsWith(outputDir, "Error")
    ensures var path := OutputPath(outputDir, outputToken);
      && !StartsWith(path, "Error")
      && path != INVALID_INPUT_FILES && path != FACE_SWAP_FAILED && path != FAILED_TO_SAVE_OUTPUT
  {
    OutputPathNotErrorPrefixed(outputDir, outputToken);
    var path := OutputPath(outputDir, outputToken);
    assert EndsWith(path, ".png");
    assert path[|path| - 1] == 'g';
  }

  /** face_swap returns the output path exactly when both inputs are valid, the
      model returned a path that exists, and the save succeeded (for an output
      directory that does not itself start with "Error"). */
  lemma FaceSwapSucceedsIff(source: string, dest: string, existing: set<string>, reply: RemoteReply,
                            outputDir: string, outputToken: string, saveOk: bool)
    requires !StartsWith(outputDir, "Error")
    ensures FaceSwap(source, dest, existing, reply, outputDir, outputToken, saveOk) == OutputPath(outputDir, outputToken)
        <==> && ValidateFile(source, existing) && ValidateFile(dest, existing)
             && reply.Returned? && reply.result != "" && reply.result in existing
             && saveOk
  {
  }
}
