/** The two filename checks of the service (`allowed_file` on upload names,
    `validate_file` on local paths), POSIX path joining, and the names of the
    temporary files an accepted upload is written to. The filesystem is the set
    of paths that exist. */
module Uploads {
  import opened Strings

  /** ALLOWED_EXTENSIONS: compared with the lower-cased extension. */
  const ALLOWED_EXTENSIONS: set<string> := {"png", "jpg", "jpeg"}

  /** The text after the last '.', the second half of `rsplit('.', 1)`. */
  function Extension(name: string): (ext: string)
    requires '.' in name
    ensures '.' !in ext
    ensures |ext| < |name| && name[|name| - |ext| - 1] == '.' && ext == name[|name| - |ext|..]
  {
    name[LastIndexOf(name, '.') + 1..]
  }

  /** allowed_file: a '.' is present and the lower-cased extension is allowed. */
  predicate AllowedFile(filename: string) {
    '.' in filename && Lower(Extension(filename)) in ALLOWED_EXTENSIONS
  }

  /** The suffix test of validate_file: `path.lower().endswith(('.png', '.jpg', '.jpeg'))`. */
  predicate HasImageSuffix(path: string) {
    var lower := Lower(path);
    EndsWith(lower, ".png") || EndsWith(lower, ".jpg") || EndsWith(lower, ".jpeg")
  }

  /** validate_file: the path exists and has an image suffix. */
  predicate ValidateFile(path: string, existing: set<string>) {
    if path !in existing then false
    else if !HasImageSuffix(path) then false
    else true
  }

  /** os.path.join of two components on POSIX. */
  function JoinPath(dir: string, name: string): (path: string)
    ensures EndsWith(path, name)
    ensures !StartsWith(name, "/") ==> StartsWith(path, dir)
    ensures |path| <= |dir| + 1 + |name|
  {
    if StartsWith(name, "/") then name
    else if dir == [] || EndsWith(dir, "/") then dir + name
    else dir + "/" + name
  }

  /** The name an accepted upload is stored under: `f"{prefix}{token}.{ext}"`,
      where `ext` is the upload's own extension, in its own case. */
  function TempFileName(prefix: string, token: string, filename: string): string
    requires '.' in filename
  {
    prefix + token + "." + Extension(filename)
  }

  /** The extension test depends only on what follows the last '.'. */
  lemma AllowedFileSplit(base: string, ext: string)
    requires '.' !in ext
    ensures AllowedFile(base + "." + ext) <==> Lower(ext) in ALLOWED_EXTENSIONS
  {
    var name := base + "." + ext;
    assert name[|base|] == '.';
    forall j | |base| < j < |name| ensures name[j] != '.' {
      assert name[j] == ext[j - |base| - 1];
    }
    LastIndexOfAt(name, '.', |base|);
    assert Extension(name) == ext;
  }

  /** Worked case: the extension's case is ignored. */
  lemma AllowedFileIgnoresCase()
    ensures AllowedFile("a.PNG")
  {
    AllowedFileSplit("a", "PNG");
    assert "a" + "." + "PNG" == "a.PNG";
    assert Lower("PNG") == "png";
  }

  /** Worked case: a name that is only a dot and an extension is accepted. */
  lemma AllowedFileEmptyStem()
    ensures AllowedFile(".png")
  {
    AllowedFileSplit("", "png");
    assert "" + "." + "png" == ".png";
    assert Lower("png") == "png";
  }

  /** Worked case: only the text after the last '.' counts. */
  lemma AllowedFileLastExtensionOnly()
    ensures !AllowedFile("a.png.gif")
  {
  }

  /** Worked case: a trailing '.' leaves an empty extension, which is refused. */
  lemma AllowedFileEmptyExtension()
    ensures !AllowedFile("a.")
  {
  }

  /** Worked case: a name without '.' is refused, even if it spells an extension. */
  lemma AllowedFileNoDot()
    ensures !AllowedFile("png")
  {
  }

  /** A lower-cased suffix `.ext` (ext without '.') fixes the last '.' and the extension. */
  lemma SuffixFixesExtension(name: string, suffix: string)
    requires |suffix| >= 1 && suffix[0] == '.' && '.' !in suffix[1..]
    requires suffix[1..] in ALLOWED_EXTENSIONS
    requires EndsWith(Lower(name), suffix)
    ensures AllowedFile(name) && Lower(Extension(name)) == suffix[1..]
  {
    var k := |name| - |suffix|;
    assert Lower(name)[k] == suffix[0];
    assert name[k] == '.';
    forall j | k < j < |name| ensures name[j] != '.' {
      assert Lower(name)[j] == suffix[1..][j - k - 1];
    }
    LastIndexOfAt(name, '.', k);
    assert Extension(name) == name[k + 1..];
    LowerSuffix(name, k + 1);
  }

  /** The lower-cased name ends in '.' and the lower-cased extension. */
  lemma LowerEndsWithExtension(name: string)
    requires '.' in name
    ensures EndsWith(Lower(name), ['.'] + Lower(Extension(name)))
  {
    var ext := Extension(name);
    var i := |name| - |ext| - 1;
    var lower, lowerExt := Lower(name), Lower(ext);
    var tail, suffix := lower[i..], ['.'] + lowerExt;
    forall j | 0 <= j < |tail| ensures tail[j] == suffix[j] {
      assert tail[j] == lower[i + j] == LowerChar(name[i + j]);
      if 0 < j {
        assert ext[j - 1] == name[i + j];
        assert suffix[j] == lowerExt[j - 1] == LowerChar(ext[j - 1]);
      }
    }
    assert tail == suffix;
  }

  /** An allowed extension gives the lower-cased name one of the image suffixes. */
  lemma AllowedFileHasImageSuffix(name: string)
    requires AllowedFile(name)
    ensures HasImageSuffix(name)
  {
    LowerEndsWithExtension(name);
    DotExtensionIsImageSuffix(Lower(Extension(name)), Lower(name));
  }

  /** Ending in '.' followed by an allowed extension is one of validate_file's suffixes. */
  lemma DotExtensionIsImageSuffix(e: string, lower: string)
    requires e in ALLOWED_EXTENSIONS
    requires EndsWith(lower, ['.'] + e)
    ensures EndsWith(lower, ".png") || EndsWith(lower, ".jpg") || EndsWith(lower, ".jpeg")
  {
  }

  /** The two validators agree on the extension: allowed_file accepts a name
      exactly when validate_file's suffix test accepts it. */
  lemma AllowedFileIffImageSuffix(name: string)
    ensures AllowedFile(name) <==> HasImageSuffix(name)
  {
    if AllowedFile(name) {
      AllowedFileHasImageSuffix(name);
    }
    if HasImageSuffix(name) {
      var lower := Lower(name);
      var suffix := if EndsWith(lower, ".png") then ".png"
                    else if EndsWith(lower, ".jpg") then ".jpg"
                    else ".jpeg";
      assert suffix[1..] in ALLOWED_EXTENSIONS;
      SuffixFixesExtension(name, suffix);
    }
  }

  /** validate_file is existence plus allowed_file's extension test. */
  lemma ValidateFileIsExistingAndAllowed(path: string, existing: set<string>)
    ensures ValidateFile(path, existing) <==> path in existing && AllowedFile(path)
  {
    AllowedFileIffImageSuffix(path);
  }

  /** A temporary file named after an upload that passed allowed_file passes
      validate_file once it exists, whatever directory, prefix and token. */
  lemma TempPathPassesValidation(dir: string, prefix: string, token: string, filename: string, existing: set<string>)
    requires AllowedFile(filename)
    requires JoinPath(dir, TempFileName(prefix, token, filename)) in existing
    ensures ValidateFile(JoinPath(dir, TempFileName(prefix, token, filename)), existing)
  {
    var ext := Extension(filename);
    var name := TempFileName(prefix, token, filename);
    var path := JoinPath(dir, name);
    var head := path[..|path| - |name|];
    assert path == head + name;
    assert path == (head + prefix + token) + "." + ext;
    AllowedFileSplit(head + prefix + token, ext);
    ValidateFileIsExistingAndAllowed(path, existing);
  }
}
