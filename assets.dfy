/**
 * Asset descriptors: the pure part of the server that turns a file name into
 * the public path a push is announced under, the storage path it is read from,
 * and the `content-type` header taken from a two-entry extension table.
 */
module Assets {
  import opened Wrappers

  /** The character `getContentHeader` splits a file name on. */
  const Dot: char := '.'

  const TextCss: string := "text/css"
  const ApplicationJavascript: string := "application/javascript"

  /** The extension table: only `css` and `js` are known. */
  const MimeTypes: map<string, string> := map["css" := TextCss, "js" := ApplicationJavascript]

  /** The header object `{ 'content-type': ... }`; the value may be undefined. */
  datatype Headers = Headers(contentType: Option<string>)

  /** What is known about one pushable asset. */
  datatype FileDescription = FileDescription(path: string, filePath: string, headers: Headers)

  /**
   * `s.split(sep)` for a one-character separator: the pieces between
   * separators, an empty piece wherever two separators touch or a separator
   * starts or ends `s`, and the single piece `""` for the empty string.
   */
  function Split(s: string, sep: char): (parts: seq<string>)
    ensures |parts| >= 1
    decreases |s|
  {
    if |s| == 0 then [""]
    else
      var rest := Split(s[1..], sep);
      if s[0] == sep then [""] + rest
      else [[s[0]] + rest[0]] + rest[1..]
  }

  /** No piece of a split contains the separator. */
  lemma {:induction false} SplitPieces(s: string, sep: char)
    ensures forall i :: 0 <= i < |Split(s, sep)| ==> sep !in Split(s, sep)[i]
    decreases |s|
  {
    if |s| > 0 {
      SplitPieces(s[1..], sep);
      var rest := Split(s[1..], sep);
      if s[0] != sep {
        var parts := Split(s, sep);
        assert parts[0] == [s[0]] + rest[0];
        forall i | 1 <= i < |parts| ensures sep !in parts[i] {
          assert parts[i] == rest[i];
        }
      }
    }
  }

  /** `parts.join(sep)`, the inverse of `Split`. */
  function Join(parts: seq<string>, sep: char): string
    decreases |parts|
  {
    if |parts| == 0 then ""
    else if |parts| == 1 then parts[0]
    else parts[0] + [sep] + Join(parts[1..], sep)
  }

  lemma JoinPrepend(x: string, parts: seq<string>, sep: char)
    requires |parts| >= 1
    ensures Join([x + parts[0]] + parts[1..], sep) == x + Join(parts, sep)
  {
    var q := [x + parts[0]] + parts[1..];
    if |parts| > 1 {
      assert q[1..] == parts[1..];
    }
  }

  /** Joining the pieces of a split gives back the string. */
  lemma {:induction false} JoinSplit(s: string, sep: char)
    ensures Join(Split(s, sep), sep) == s
    decreases |s|
  {
    if |s| > 0 {
      var rest := Split(s[1..], sep);
      JoinSplit(s[1..], sep);
      if s[0] == sep {
        assert ([""] + rest)[1..] == rest;
        assert s == [sep] + s[1..];
      } else {
        JoinPrepend([s[0]], rest, sep);
        assert s == [s[0]] + s[1..];
      }
    }
  }

  /** One step of `Split`, for a string given as its first character and the rest. */
  lemma SplitCons(c: char, w: string, sep: char)
    ensures Split([c] + w, sep) ==
      if c == sep then [""] + Split(w, sep) else [[c] + Split(w, sep)[0]] + Split(w, sep)[1..]
  {
    assert ([c] + w)[0] == c;
    assert ([c] + w)[1..] == w;
  }

  /** The sequence reasoning of one step of `SplitAppend`, apart from `Split` itself. */
  lemma SplitStepGlue(c: char, sep: char, whole: seq<string>, r: seq<string>, r': seq<string>)
    requires |r| >= 1 && whole == r + r'
    ensures (if c == sep then [""] + whole else [[c] + whole[0]] + whole[1..]) ==
            (if c == sep then [""] + r else [[c] + r[0]] + r[1..]) + r'
  {
    if c != sep {
      assert whole[0] == r[0];
      assert whole[1..] == r[1..] + r';
    }
  }

  lemma SplitAppendStep(c: char, w: string, t: string, sep: char)
    requires Split(w + [sep] + t, sep) == Split(w, sep) + Split(t, sep)
    ensures Split([c] + (w + [sep] + t), sep) == Split([c] + w, sep) + Split(t, sep)
  {
    SplitCons(c, w + [sep] + t, sep);
    SplitCons(c, w, sep);
    SplitStepGlue(c, sep, Split(w + [sep] + t, sep), Split(w, sep), Split(t, sep));
  }

  /** Splitting around one separator splits both sides independently. */
  lemma {:induction false} SplitAppend(s: string, t: string, sep: char)
    ensures Split(s + [sep] + t, sep) == Split(s, sep) + Split(t, sep)
    decreases |s|
  {
    if |s| == 0 {
      assert s + [sep] + t == [sep] + t;
      SplitCons(sep, t, sep);
    } else {
      var c, w := s[0], s[1..];
      assert s == [c] + w;
      assert s + [sep] + t == [c] + (w + [sep] + t);
      SplitAppend(w, t, sep);
      SplitAppendStep(c, w, t, sep);
    }
  }

  /** A string without the separator is a single piece. */
  lemma {:induction false} SplitNoSeparator(s: string, sep: char)
    requires sep !in s
    ensures Split(s, sep) == [s]
    decreases |s|
  {
    if |s| > 0 {
      assert sep !in s[1..] by {
        forall i | 0 <= i < |s[1..]| ensures s[1..][i] != sep {
          assert s[1..][i] == s[i + 1];
        }
      }
      SplitNoSeparator(s[1..], sep);
      assert s == [s[0]] + s[1..];
    }
  }

  /** Splitting a join of separator-free pieces gives back the pieces. */
  lemma {:induction false} SplitJoin(parts: seq<string>, sep: char)
    requires |parts| >= 1
    requires forall i :: 0 <= i < |parts| ==> sep !in parts[i]
    ensures Split(Join(parts, sep), sep) == parts
    decreases |parts|
  {
    SplitNoSeparator(parts[0], sep);
    if |parts| > 1 {
      SplitJoin(parts[1..], sep);
      SplitAppend(parts[0], Join(parts[1..], sep), sep);
      assert parts == [parts[0]] + parts[1..];
    }
  }

  lemma {:induction false} JoinLast(parts: seq<string>, sep: char)
    requires |parts| >= 2
    ensures Join(parts, sep) == Join(parts[..|parts| - 1], sep) + [sep] + parts[|parts| - 1]
    decreases |parts|
  {
    if |parts| > 2 {
      JoinLast(parts[1..], sep);
      assert parts[1..][..|parts| - 2] == parts[..|parts| - 1][1..];
    }
  }

  /**
   * `fileName.split('.').pop()`: the last piece of the split.
   */
  function Extension(fileName: string): string
  {
    var parts := Split(fileName, Dot);
    parts[|parts| - 1]
  }

  /**
   * The extension is the text after the last dot, or the whole name when it
   * has no dot.
   */
  lemma ExtensionSpec(fileName: string)
    ensures var ext := Extension(fileName);
      Dot !in ext &&
      |ext| <= |fileName| && fileName[|fileName| - |ext|..] == ext &&
      (|ext| == |fileName| || fileName[|fileName| - |ext| - 1] == Dot)
  {
    var parts := Split(fileName, Dot);
    JoinSplit(fileName, Dot);
    SplitPieces(fileName, Dot);
    if |parts| > 1 {
      JoinLast(parts, Dot);
    }
  }

  /** The three facts `Extension` promises determine it uniquely. */
  lemma ExtensionUnique(fileName: string, ext: string)
    requires Dot !in ext
    requires |ext| <= |fileName| && fileName[|fileName| - |ext|..] == ext
    requires |ext| == |fileName| || fileName[|fileName| - |ext| - 1] == Dot
    ensures Extension(fileName) == ext
  {
    if |ext| == |fileName| {
      assert fileName == ext;
      SplitNoSeparator(ext, Dot);
    } else {
      var pre := fileName[..|fileName| - |ext| - 1];
      assert fileName == pre + [Dot] + ext;
      SplitAppend(pre, ext, Dot);
      SplitNoSeparator(ext, Dot);
    }
  }

  /** `name` is the bare extension `ext`, or ends in a dot followed by `ext`. */
  predicate HasExtension(name: string, ext: string)
  {
    name == ext || (|name| > |ext| && name[|name| - |ext| - 1..] == [Dot] + ext)
  }

  /** For a dot-free `ext`, the extension of `name` is `ext` exactly when `name` ends in it as above. */
  lemma ExtensionMatches(name: string, ext: string)
    requires Dot !in ext
    ensures Extension(name) == ext <==> HasExtension(name, ext)
  {
    ExtensionSpec(name);
    if HasExtension(name, ext) {
      if name != ext {
        assert name[|name| - |ext|..] == name[|name| - |ext| - 1..][1..];
        assert name[|name| - |ext| - 1] == name[|name| - |ext| - 1..][0];
      }
      ExtensionUnique(name, ext);
    }
    if Extension(name) == ext && name != ext {
      assert name[|name| - |ext| - 1..] == [name[|name| - |ext| - 1]] + name[|name| - |ext|..];
    }
  }

  /** `getContentHeader`: the table entry of the extension, undefined when there is none. */
  function GetContentHeader(fileName: string): Headers
  {
    var ext := Extension(fileName);
    Headers(if ext in MimeTypes then Some(MimeTypes[ext]) else None)
  }

  /**
   * `text/css` exactly for names with extension `css`, `application/javascript`
   * exactly for extension `js`, and an undefined content type for every other
   * name.
   */
  lemma ContentTypeBySuffix(fileName: string)
    ensures var h := GetContentHeader(fileName);
      (h.contentType == Some(TextCss) <==> HasExtension(fileName, "css")) &&
      (h.contentType == Some(ApplicationJavascript) <==> HasExtension(fileName, "js")) &&
      (h.contentType == None <==> !HasExtension(fileName, "css") && !HasExtension(fileName, "js"))
  {
    ExtensionMatches(fileName, "css");
    ExtensionMatches(fileName, "js");
  }

  /** `getFileDescription`: public path `/f`, storage path `./f`, headers of `f`. */
  function GetFileDescription(file: string): FileDescription
  {
    FileDescription("/" + file, "./" + file, GetContentHeader(file))
  }

  /** A name `stem.ext` with an extension from the table gets that extension's content type. */
  lemma DescriptionOfStem(stem: string, ext: string)
    requires ext in MimeTypes
    ensures var name := stem + [Dot] + ext;
      GetFileDescription(name) == FileDescription("/" + name, "./" + name, Headers(Some(MimeTypes[ext])))
  {
    var name := stem + [Dot] + ext;
    assert Dot !in ext by {
      assert ext == "css" || ext == "js";
    }
    assert name[|name| - |ext| - 1..] == [Dot] + ext;
    ExtensionMatches(name, ext);
  }

  /**
   * The descriptor keeps the file name recoverable from both paths, so two
   * different names never share a public or a storage path, and its header
   * is the one the name's extension selects.
   */
  lemma FileDescriptionParts(file: string, other: string)
    ensures var d := GetFileDescription(file);
      |d.path| == |file| + 1 && d.path[0] == '/' && d.path[1..] == file &&
      |d.filePath| == |file| + 2 && d.filePath[..2] == "./" && d.filePath[2..] == file &&
      (d.headers.contentType == Some(TextCss) <==> HasExtension(file, "css")) &&
      (d.headers.contentType == Some(ApplicationJavascript) <==> HasExtension(file, "js"))
    ensures file != other ==>
      GetFileDescription(file).path != GetFileDescription(other).path &&
      GetFileDescription(file).filePath != GetFileDescription(other).filePath
  {
    var d, e := GetFileDescription(file), GetFileDescription(other);
    ContentTypeBySuffix(file);
    assert d.path[1..] == file && e.path[1..] == other;
    assert d.filePath[2..] == file && e.filePath[2..] == other;
  }

  /** A name with a dot has the same extension, and so the same header, as its public path. */
  lemma PublicPathExtension(file: string)
    requires Dot in file
    ensures GetContentHeader(GetFileDescription(file).path) == GetFileDescription(file).headers
  {
    var p := "/" + file;
    var ext := Extension(file);
    ExtensionSpec(file);
    assert |ext| < |file|;
    assert p[|p| - |ext|..] == file[|file| - |ext|..];
    assert p[|p| - |ext| - 1] == file[|file| - |ext| - 1];
    ExtensionUnique(p, ext);
  }
}
