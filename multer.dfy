/**
 * The image-upload filter: a file is accepted exactly when its name's extension, lower-cased,
 * is `.jpg`, `.jpeg` or `.png`; an accepted file is stored under its original name.
 */
module Upload {
  import opened Values
  import opened Text

  const WrongFormat := "Wrong format for file"

  /** The path without its trailing separators. */
  function StripTrailingSlashes(p: string): (r: string)
    ensures |r| <= |p| && r == p[..|r|]
    decreases |p|
  {
    if |p| > 0 && p[|p| - 1] == '/' then StripTrailingSlashes(p[..|p| - 1]) else p
  }

  /**
   * Node's POSIX `path.extname`: from the last '.' of the last path component to its end,
   * or '' when that component has no '.', has its last '.' as first character, or is "..".
   */
  function ExtName(path: string): (ext: string)
    ensures ext == "" || ext[0] == '.'
  {
    ComponentExt(AfterLast(StripTrailingSlashes(path), '/'))
  }

  /** The extension of one path component. */
  function ComponentExt(base: string): (ext: string)
    ensures ext == "" || ext[0] == '.'
    ensures ext != "" ==> '.' !in ext[1..] && |ext| < |base| && ext == base[|base| - |ext|..]
  {
    var tail := AfterLast(base, '.');
    if |tail| == |base| || |tail| + 1 == |base| || base == ".." then "" else "." + tail
  }

  predicate AllowedExtension(ext: string)
  {
    ext == ".jpg" || ext == ".jpeg" || ext == ".png"
  }

  /** One invocation of multer's callback: `cb(error)` or `cb(null, accept)`. */
  datatype FilterCallback = FilterCallback(error: Option<string>, accept: Option<bool>)

  /** The filter's test: the extension of the original name, lower-cased, is an image extension. */
  predicate Accepts(originalname: string)
  {
    AllowedExtension(ToLower(ExtName(originalname)))
  }

  /** `fileFilter`: the callback invocations it makes for a file with this original name. */
  function FileFilter(originalname: string): (calls: seq<FilterCallback>)
    ensures |calls| == 1
    ensures calls[0].error.Some? <==> !Accepts(originalname)
    ensures calls[0].error.Some? <==> calls[0].accept.None?
    ensures calls[0].error.Some? ==> calls[0].error.value == WrongFormat
    ensures calls[0].accept.Some? ==> calls[0].accept.value
  {
    var extension := ToLower(ExtName(originalname));
    if !AllowedExtension(extension) then [FilterCallback(Some(WrongFormat), None)]
    else [FilterCallback(None, Some(true))]
  }

  /** The storage `key` callback: `callback(null, file.originalname)`. */
  function ObjectKey(originalname: string): (result: (Option<string>, string))
  {
    (None, originalname)
  }

  lemma LowerCharIsPunctuation(c: char, p: char)
    requires p == '/' || p == '.'
    ensures LowerChar(c) == p <==> c == p
  {
  }

  lemma {:induction false} StripTrailingSlashesLower(p: string)
    ensures StripTrailingSlashes(ToLower(p)) == ToLower(StripTrailingSlashes(p))
    decreases |p|
  {
    if |p| > 0 {
      LowerCharIsPunctuation(p[|p| - 1], '/');
      ToLowerSlices(p, |p| - 1);
      if p[|p| - 1] == '/' {
        StripTrailingSlashesLower(p[..|p| - 1]);
      }
    }
  }

  lemma ToLowerSnoc(a: string, c: char)
    ensures ToLower(a + [c]) == ToLower(a) + [LowerChar(c)]
  {
  }

  /** The last character and the rest of a lower-cased string. */
  lemma ToLowerLast(s: string)
    requires s != []
    ensures ToLower(s)[|s| - 1] == LowerChar(s[|s| - 1])
    ensures ToLower(s)[..|s| - 1] == ToLower(s[..|s| - 1])
  {
    ToLowerSlices(s, |s| - 1);
  }

  lemma {:induction false} AfterLastLower(s: string, sep: char)
    requires sep == '/' || sep == '.'
    ensures AfterLast(ToLower(s), sep) == ToLower(AfterLast(s, sep))
    decreases |s|
  {
    if s != [] {
      var n := |s| - 1;
      ToLowerLast(s);
      LowerCharIsPunctuation(s[n], sep);
      if s[n] != sep {
        AfterLastLower(s[..n], sep);
        AfterLastSnocLower(s, sep);
      }
    }
  }

  lemma AfterLastSnocLower(s: string, sep: char)
    requires s != [] && s[|s| - 1] != sep && LowerChar(s[|s| - 1]) != sep
    requires AfterLast(ToLower(s[..|s| - 1]), sep) == ToLower(AfterLast(s[..|s| - 1], sep))
    ensures AfterLast(ToLower(s), sep) == ToLower(AfterLast(s, sep))
  {
    var n := |s| - 1;
    var t := ToLower(s);
    ToLowerLast(s);
    assert AfterLast(t, sep) == AfterLast(t[..n], sep) + [t[n]];
    assert AfterLast(s, sep) == AfterLast(s[..n], sep) + [s[n]];
    ToLowerSnoc(AfterLast(s[..n], sep), s[n]);
  }

  lemma ComponentExtLower(base: string)
    ensures ComponentExt(ToLower(base)) == ToLower(ComponentExt(base))
  {
    AfterLastLower(base, '.');
    var tail := AfterLast(base, '.');
    if ToLower(base) == ".." {
      assert LowerChar(base[0]) == '.' && LowerChar(base[1]) == '.';
      LowerCharIsPunctuation(base[0], '.');
      LowerCharIsPunctuation(base[1], '.');
      assert base == "..";
    }
    if ComponentExt(base) != "" {
      ToLowerCons('.', tail);
    }
  }

  lemma ToLowerCons(c: char, a: string)
    ensures ToLower([c] + a) == [LowerChar(c)] + ToLower(a)
  {
  }

  /** Lower-casing a name and then taking its extension is taking the extension and lower-casing it. */
  lemma ExtNameLower(name: string)
    ensures ExtName(ToLower(name)) == ToLower(ExtName(name))
  {
    StripTrailingSlashesLower(name);
    AfterLastLower(StripTrailingSlashes(name), '/');
    ComponentExtLower(AfterLast(StripTrailingSlashes(name), '/'));
  }

  /** Acceptance ignores case: names that differ only in letter case get the same answer. */
  lemma FilterIgnoresCase(a: string, b: string)
    requires ToLower(a) == ToLower(b)
    ensures Accepts(a) <==> Accepts(b)
  {
    ExtNameLower(a);
    ExtNameLower(b);
    assert ToLower(ExtName(a)) == ToLower(ExtName(b));
  }

  /** An accepted upload is stored under a key carrying an accepted image extension. */
  lemma StoredKeyKeepsExtension(originalname: string)
    requires Accepts(originalname)
    ensures ObjectKey(originalname).0.None?
    ensures AllowedExtension(ToLower(ExtName(ObjectKey(originalname).1)))
  {
  }

  /** A name with no '/' and a single '.' after a non-empty stem has extension "." + suffix. */
  lemma ExtNameOfSimpleName(stem: string, suffix: string)
    requires stem != [] && suffix != [] && '/' !in stem + "." + suffix && '.' !in suffix
    ensures ExtName(stem + "." + suffix) == "." + suffix
  {
    var name := stem + "." + suffix;
    assert name[|name| - 1] != '/' by {
      assert name[|name| - 1] in name;
    }
    assert StripTrailingSlashes(name) == name;
    var base := AfterLast(name, '/');
    assert |base| == |name|;
    assert base == name;
    assert stem + "." + suffix == stem + ['.'] + suffix;
    AfterLastOfJoin(stem, '.', suffix);
    assert base != "..";
  }

  /**
   * A plain file name `stem.suffix` is accepted iff its suffix, lower-cased, names an image type.
   * The stem may itself contain dots ("archive.png.exe"): only the last extension counts.
   */
  lemma SimpleNameAccepted(stem: string, suffix: string)
    requires stem != [] && suffix != [] && '/' !in stem + "." + suffix && '.' !in suffix
    ensures Accepts(stem + "." + suffix) <==> AllowedExtension("." + ToLower(suffix))
  {
    ExtNameOfSimpleName(stem, suffix);
    ToLowerCons('.', suffix);
    assert "." + suffix == ['.'] + suffix;
  }

  /** A dot-file such as ".png" has no extension, so it is refused. */
  lemma DotFileRejected(suffix: string)
    requires '/' !in suffix && '.' !in suffix
    ensures !Accepts("." + suffix)
  {
    var name := "." + suffix;
    assert name == [] + ['.'] + suffix;
    assert '/' !in name;
    assert name[|name| - 1] in name;
    assert StripTrailingSlashes(name) == name;
    assert AfterLast(name, '/') == name;
    AfterLastOfJoin([], '.', suffix);
  }
}
