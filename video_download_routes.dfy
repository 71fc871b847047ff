/** The upload route's file handling: which files the middleware lets
    through (mime whitelist, then the size limit) and the name a stored
    upload gets. The clock and the random text are inputs. The extension
    follows the POSIX rule of Node's `path.extname`. */
module VideoDownloadRoutes {
  import opened Strings

  const ALLOWED_MIMES: seq<string> :=
    ["video/mp4", "video/mpeg", "video/quicktime", "video/x-msvideo", "video/x-flv", "video/webm"]

  const INVALID_TYPE_MESSAGE := "Invalid file type. Only video files are allowed."

  /** 500 MiB. */
  const MAX_FILE_SIZE: nat := 500 * 1024 * 1024

  /** What happens to an incoming file. */
  datatype Admission = Stored | Rejected(message: string)

  /** The mime filter decides first; a file that passes it is then cut off
      when it grows beyond the size limit. */
  function Admit(mime: string, size: nat): (a: Admission)
    ensures a == Stored <==> mime in ALLOWED_MIMES && size <= MAX_FILE_SIZE
    ensures mime !in ALLOWED_MIMES ==> a == Rejected(INVALID_TYPE_MESSAGE)
    ensures mime in ALLOWED_MIMES && size > MAX_FILE_SIZE ==> a == Rejected(FILE_TOO_LARGE_MESSAGE)
  {
    if mime !in ALLOWED_MIMES then Rejected(INVALID_TYPE_MESSAGE)
    else if size > MAX_FILE_SIZE then Rejected(FILE_TOO_LARGE_MESSAGE)
    else Stored
  }

  /** The size-limit error text of the upload middleware. */
  const FILE_TOO_LARGE_MESSAGE := "File too large"

  /** Every whitelisted type is a video type. */
  lemma AllowedMimesAreVideo(mime: string)
    requires mime in ALLOWED_MIMES
    ensures StartsWith(mime, "video/")
  {
  }

  // ---------------------------------------------------------------- extension

  function TrimTrailingSlashes(p: string): (r: string)
    ensures |r| <= |p| && r == p[..|r|]
    ensures |r| == 0 || r[|r| - 1] != '/'
    ensures forall i :: |r| <= i < |p| ==> p[i] == '/'
    decreases |p|
  {
    if |p| > 0 && p[|p| - 1] == '/' then TrimTrailingSlashes(p[..|p| - 1]) else p
  }

  /** `s.lastIndexOf(c)` for one character. */
  function LastIndexOf(s: string, c: char): (r: int)
    ensures -1 <= r < |s|
    ensures r >= 0 ==> s[r] == c
    ensures forall i :: r < i < |s| ==> s[i] != c
    decreases |s|
  {
    if |s| == 0 then -1
    else if s[|s| - 1] == c then |s| - 1
    else LastIndexOf(s[..|s| - 1], c)
  }

  /** The last path component, trailing separators ignored. */
  function Basename(p: string): (b: string)
    ensures '/' !in b
  {
    var t := TrimTrailingSlashes(p);
    var b := t[LastIndexOf(t, '/') + 1..];
    assert forall i :: 0 <= i < |b| ==> b[i] != '/' by {
      forall i | 0 <= i < |b| ensures b[i] != '/' {
        assert b[i] == t[LastIndexOf(t, '/') + 1 + i];
      }
    }
    b
  }

  /** The extension: from the last dot of the last component, empty when
      that component has no dot, starts with its only dot, or is "..". */
  function Extname(p: string): (ext: string)
    ensures |ext| == 0 || (ext[0] == '.' && '.' !in ext[1..] && '/' !in ext)
    ensures |ext| > 0 ==> var b := Basename(p); |ext| < |b| && b[|b| - |ext|..] == ext
  {
    var b := Basename(p);
    var d := LastIndexOf(b, '.');
    if d <= 0 || b == ".." then ""
    else
      var ext := b[d..];
      assert '.' !in ext[1..] by {
        forall i | 0 <= i < |ext[1..]| ensures ext[1..][i] != '.' {
          assert ext[1..][i] == b[d + 1 + i];
        }
      }
      assert '/' !in ext by {
        forall i | 0 <= i < |ext| ensures ext[i] != '/' {
          assert ext[i] == b[d + i];
        }
      }
      ext
  }

  /** A last component `stem.ext` has extension `.ext`. */
  lemma ExtnameOfName(dir: string, stem: string, ext: string)
    requires |dir| == 0 || dir[|dir| - 1] == '/'
    requires |stem| > 0 && '/' !in stem && '/' !in ext && '.' !in ext
    requires stem + "." + ext != ".."
    ensures Extname(dir + (stem + "." + ext)) == "." + ext
  {
    var name := stem + "." + ext;
    NameHasNoSlash(stem, ext);
    BasenameOfName(dir, name);
    LastDotOfName(stem, ext);
    ExtnameFromParts(dir + name, name, |stem|);
    SuffixAfterStem(stem, ext);
  }

  lemma SuffixAfterStem(stem: string, ext: string)
    ensures (stem + "." + ext)[|stem|..] == "." + ext
  {
  }

  lemma NameHasNoSlash(stem: string, ext: string)
    requires '/' !in stem && '/' !in ext
    ensures '/' !in stem + "." + ext
  {
    var name := stem + "." + ext;
    forall i | 0 <= i < |name| ensures name[i] != '/' {
      if i < |stem| {
        assert name[i] == stem[i];
      } else if i > |stem| {
        assert name[i] == ext[i - |stem| - 1];
      }
    }
  }

  lemma ExtnameFromParts(p: string, b: string, d: int)
    requires Basename(p) == b && LastIndexOf(b, '.') == d && d > 0 && b != ".."
    ensures Extname(p) == b[d..]
  {
  }

  lemma BasenameOfName(dir: string, name: string)
    requires |dir| == 0 || dir[|dir| - 1] == '/'
    requires |name| > 0 && '/' !in name
    ensures Basename(dir + name) == name
  {
    var p := dir + name;
    assert p[|p| - 1] == name[|name| - 1];
    assert TrimTrailingSlashes(p) == p;
    LastSlashBeforeName(dir, name);
    assert p[|dir|..] == name;
  }

  lemma LastDotOfName(stem: string, ext: string)
    requires '.' !in ext
    ensures LastIndexOf(stem + "." + ext, '.') == |stem|
  {
    var name := stem + "." + ext;
    LastIndexOfIs(name, '.', |stem|);
  }

  /** The last occurrence is the occurrence with no other after it. */
  lemma LastIndexOfIs(s: string, c: char, k: nat)
    requires k < |s| && s[k] == c
    requires forall i :: k < i < |s| ==> s[i] != c
    ensures LastIndexOf(s, c) == k
  {
  }

  /** No separator after `dir` means the name is the last component. */
  lemma LastSlashBeforeName(dir: string, name: string)
    requires |dir| == 0 || dir[|dir| - 1] == '/'
    requires '/' !in name
    ensures LastIndexOf(dir + name, '/') + 1 == |dir|
  {
    var t := dir + name;
    var k := LastIndexOf(t, '/');
    if |dir| > 0 {
      assert t[|dir| - 1] == '/';
    }
    forall i | |dir| <= i < |t| ensures t[i] != '/' {
      assert t[i] == name[i - |dir|];
    }
  }

  // ---------------------------------------------------------------- stored name

  /** Characters of a base-36 numeral. */
  predicate IsBase36(c: char) {
    ('0' <= c <= '9') || ('a' <= c <= 'z')
  }

  /** `<timestamp>_<random><ext>`. */
  function StoredFilename(timestamp: nat, random: string, originalName: string): (name: string)
    ensures StartsWith(name, NatToString(timestamp) + "_" + random)
    ensures name[|NatToString(timestamp)| + 1 + |random|..] == Extname(originalName)
  {
    var head := NatToString(timestamp) + "_" + random;
    var name := head + Extname(originalName);
    assert name[..|head|] == head;
    name
  }

  /** The stored file keeps the extension of the uploaded one. */
  lemma StoredFilenameKeepsExtension(timestamp: nat, random: string, originalName: string)
    requires forall i :: 0 <= i < |random| ==> IsBase36(random[i])
    ensures Extname(StoredFilename(timestamp, random, originalName)) == Extname(originalName)
  {
    var head := NatToString(timestamp) + "_" + random;
    var ext := Extname(originalName);
    HeadHasNoSeparators(timestamp, random);
    if |ext| == 0 {
      ExtnameWithoutDot(head);
      AppendEmpty(head, ext);
    } else {
      SplitExtension(head, ext);
      ExtnameOfBareName(head, ext[1..]);
    }
  }

  lemma HeadHasNoSeparators(timestamp: nat, random: string)
    requires forall i :: 0 <= i < |random| ==> IsBase36(random[i])
    ensures var head := NatToString(timestamp) + "_" + random;
      '/' !in head && '.' !in head && |head| >= 2
  {
    var digits := NatToString(timestamp);
    var head := digits + "_" + random;
    forall i | 0 <= i < |head| ensures head[i] != '/' && head[i] != '.' {
      if i < |digits| {
        assert head[i] == digits[i];
      } else if i > |digits| {
        assert head[i] == random[i - |digits| - 1];
      }
    }
  }

  /** A name with neither separator nor dot has no extension. */
  lemma ExtnameWithoutDot(name: string)
    requires |name| > 0 && '/' !in name && '.' !in name
    ensures Extname(name) == ""
  {
    EmptyPrefix(name);
    BasenameOfName("", name);
  }

  /** In a bare name `stem.ext` the extension is `.ext`. */
  lemma ExtnameOfBareName(stem: string, ext: string)
    requires |stem| >= 2 && '/' !in stem && '/' !in ext && '.' !in ext
    ensures Extname(stem + "." + ext) == "." + ext
  {
    assert |stem + "." + ext| >= 3;
    EmptyPrefix(stem + "." + ext);
    ExtnameOfName("", stem, ext);
  }

  lemma EmptyPrefix(s: string)
    ensures "" + s == s
  {
  }

  lemma AppendEmpty(s: string, t: string)
    requires |t| == 0
    ensures s + t == s
  {
  }

  /** A non-empty extension is a dot and its rest. */
  lemma SplitExtension(head: string, ext: string)
    requires |ext| > 0 && ext[0] == '.'
    ensures head + ext == head + "." + ext[1..]
  {
    assert ext == "." + ext[1..];
  }
}
