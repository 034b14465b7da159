/** File names and the manifest the sender builds from them (src/transfer/file_utils.cpp, apps/sender.cpp). */
module FileUtils {
  import opened Base
  import opened Protocol
  import opened Chunks
  import ManifestCodec

  predicate IsSeparator(c: char) {
    c == '/' || c == '\\'
  }

  /** The position after the last separator, or 0. */
  function AfterLastSeparator(path: string): (n: nat)
    ensures n <= |path| && (n > 0 ==> IsSeparator(path[n - 1]))
    ensures forall i :: n <= i < |path| ==> !IsSeparator(path[i])
  {
    if path == [] then 0
    else if IsSeparator(path[|path| - 1]) then |path|
    else AfterLastSeparator(path[..|path| - 1])
  }

  function Basename(path: ByteString): ByteString {
    path[AfterLastSeparator(path)..]
  }

  predicate IsAlnum(c: char) {
    '0' <= c <= '9' || 'A' <= c <= 'Z' || 'a' <= c <= 'z'
  }

  predicate IsSafe(c: char) {
    IsAlnum(c) || c == '.' || c == '-' || c == '_'
  }

  function SafeChar(c: char): char {
    if IsSafe(c) then c else '_'
  }

  function Replace(s: ByteString): (r: ByteString)
    ensures |r| == |s| && forall i :: 0 <= i < |s| ==> r[i] == SafeChar(s[i])
  {
    seq(|s|, i requires 0 <= i < |s| => SafeChar(s[i]))
  }

  function DropDots(s: ByteString): (r: ByteString)
    ensures |r| <= |s| && r == s[|s| - |r|..]
    ensures r != [] ==> r[0] != '.'
  {
    if s != [] && s[0] == '.' then DropDots(s[1..]) else s
  }

  function Sanitize(filename: ByteString): (r: ByteString)
    ensures |r| <= Max(|filename|, 4)
  {
    var r := DropDots(Replace(Basename(filename)));
    if r == [] then "file" else r
  }

  function Max(x: int, y: int): int {
    if x >= y then x else y
  }

  method ReplaceUnsafe(base: ByteString) returns (sanitized: ByteString)
    ensures sanitized == Replace(base)
  {
    sanitized := "";
    for i := 0 to |base|
      invariant |sanitized| == i && forall j :: 0 <= j < i ==> sanitized[j] == SafeChar(base[j])
    {
      var ch := base[i];
      if IsAlnum(ch) || ch == '.' || ch == '-' || ch == '_' {
        sanitized := sanitized + [ch];
      } else {
        sanitized := sanitized + ['_'];
      }
    }
  }

  method SanitizeFilename(filename: ByteString) returns (sanitized: ByteString)
    ensures sanitized == Sanitize(filename)
  {
    hide Basename, Replace;
    sanitized := ReplaceUnsafe(Basename(filename));
    ghost var replaced := sanitized;
    while sanitized != [] && sanitized[0] == '.'
      invariant DropDots(sanitized) == DropDots(replaced)
      decreases |sanitized|
    {
      sanitized := sanitized[1..];
    }
    if sanitized == [] {
      return "file";
    }
  }

  /** A name that is safe to create: not empty, safe characters only, not hidden. */
  predicate SafeName(s: string) {
    s != [] && s[0] != '.' && forall i :: 0 <= i < |s| ==> IsSafe(s[i])
  }

  lemma SanitizedIsSafe(filename: ByteString)
    ensures SafeName(Sanitize(filename))
  {
    hide Basename, DropDots, Replace;
    var replaced := Replace(Basename(filename));
    assert forall i :: 0 <= i < |replaced| ==> IsSafe(replaced[i]);
    var r := DropDots(replaced);
    assert forall i :: 0 <= i < |r| ==> r[i] == replaced[|replaced| - |r| + i];
  }

  lemma BasenameFixed(s: ByteString)
    requires forall i :: 0 <= i < |s| ==> !IsSeparator(s[i])
    ensures Basename(s) == s
  {
  }

  /** Safe names are left alone; so sanitizing twice, or after taking the base name, is sanitizing once. */
  lemma SafeNameFixed(s: ByteString)
    requires SafeName(s)
    ensures Sanitize(s) == s
  {
    hide Basename, Replace, AfterLastSeparator;
    BasenameFixed(s);
    var r := Replace(s);
    assert forall i :: 0 <= i < |s| ==> r[i] == s[i];
    assert r == s;
  }

  lemma SanitizeStable(filename: ByteString)
    ensures Sanitize(Sanitize(filename)) == Sanitize(filename)
    ensures Sanitize(Basename(filename)) == Sanitize(filename)
  {
    SanitizedIsSafe(filename);
    SafeNameFixed(Sanitize(filename));
    BasenameFixed(Basename(filename));
  }

  /** The manifest of the sender for a file of the given path and size. */
  function SenderManifest(path: ByteString, size: u64): FileManifest {
    FileManifest(Sanitize(Basename(path)), size, DEFAULT_CHUNK_SIZE, ChunkCount(size, DEFAULT_CHUNK_SIZE),
                 ManifestCodec.NO_DIGEST, PROTOCOL_VERSION, 0)
  }

  /**
   * File sizes come from a non-negative stream position. For every such size the
   * chunk count does not wrap and the name's checkpoint loads, and the receiver
   * reads the manifest back exactly when the sanitized name fits in 255 bytes.
   */
  lemma SenderManifestAccepted(path: ByteString, size: u64)
    requires size < 0x8000_0000_0000_0000
    ensures var m := SenderManifest(path, size);
            Planned(m) && '\n' !in m.filename &&
            (ManifestCodec.Decode(ManifestCodec.Encode(m)) == Some(m) <==> |m.filename| <= MAX_FILENAME_LENGTH)
  {
    hide ManifestCodec.Decode, ManifestCodec.Encode, ChunkCount, Sanitize, Basename;
    var m := SenderManifest(path, size);
    SanitizedIsSafe(Basename(path));
    ManifestCodec.Bijection(m, ManifestCodec.Encode(m));
    if |m.filename| <= MAX_FILENAME_LENGTH {
      ManifestCodec.RoundTrip(m);
    }
  }

  // ---------------------------------------------------------------- what a name becomes

  /** The base name is what follows the last slash or backslash, or everything. */
  lemma BasenameIsLast(dir: ByteString, sep: char, name: ByteString)
    requires sep == '/' || sep == '\\'
    requires '/' !in name && '\\' !in name
    ensures Basename(dir + [sep] + name) == name && Basename(name) == name
  {
    hide AfterLastSeparator;
    var path := dir + [sep] + name;
    var n := AfterLastSeparator(path);
    assert path[|dir|] == sep;
    assert forall i :: |dir| < i < |path| ==> path[i] == name[i - |dir| - 1];
    assert n == |dir| + 1;
  }

  /** The character that a sanitized name has in place of `c`. */
  predicate Becomes(c: char, r: char) {
    if '0' <= c <= '9' || 'A' <= c <= 'Z' || 'a' <= c <= 'z' || c == '.' || c == '-' || c == '_' then r == c
    else r == '_'
  }

  /**
   * The sanitized form of a path: its last component without the leading dots, with an
   * underscore for each character that is not a letter, a digit, a dot, a hyphen or an
   * underscore; "file" exactly if nothing is left.
   */
  lemma SanitizeExactly(dir: ByteString, sep: char, name: ByteString, dots: nat)
    requires sep == '/' || sep == '\\'
    requires '/' !in name && '\\' !in name
    requires dots <= |name| && (forall i :: 0 <= i < dots ==> name[i] == '.') && (dots < |name| ==> name[dots] != '.')
    ensures Sanitize(dir + [sep] + name) == Sanitize(name)
    ensures var r := Sanitize(name);
            if dots == |name| then r == "file"
            else |r| == |name| - dots && forall i :: 0 <= i < |r| ==> Becomes(name[dots + i], r[i])
  {
    hide Basename, Replace, DropDots;
    BasenameIsLast(dir, sep, name);
    DotsDropped(Replace(name), dots);
  }

  lemma {:induction false} DotsDropped(s: ByteString, dots: nat)
    requires dots <= |s| && (forall i :: 0 <= i < dots ==> s[i] == '.') && (dots < |s| ==> s[dots] != '.')
    ensures DropDots(s) == s[dots..]
    decreases |s|
  {
    if dots > 0 {
      DotsDropped(s[1..], dots - 1);
    }
  }

  /** The repository's own examples. */
  lemma SanitizeTraversal(path: ByteString)
    requires path == "../../secret.txt"
    ensures Sanitize(path) == "secret.txt"
  {
    hide Sanitize;
    assert path == "../.." + ['/'] + "secret.txt";
    SanitizeExactly("../..", '/', "secret.txt", 0);
  }

  lemma SanitizeHidden(path: ByteString)
    requires path == "..hidden"
    ensures Sanitize(path) == "hidden"
  {
    hide Sanitize;
    SanitizeExactly("", '/', path, 2);
  }

  lemma SanitizeUnsafe(path: ByteString)
    requires path == "unsafe name?.bin"
    ensures Sanitize(path) == "unsafe_name_.bin"
  {
    hide Sanitize;
    SanitizeExactly("", '/', path, 0);
  }

  lemma SanitizeNothing(path: ByteString)
    requires path == "////"
    ensures Sanitize(path) == "file"
  {
    hide Sanitize;
    assert path == "///" + ['/'] + "";
    SanitizeExactly("///", '/', "", 0);
  }

  /** The fields of the manifest that the sender announces. */
  lemma SenderFields(path: ByteString, size: u64)
    requires size < 0x8000_0000_0000_0000
    ensures var m := SenderManifest(path, size);
            m.filename == Sanitize(path) && m.fileSize == size && m.chunkSize == 65536 &&
            m.chunkCount == (size + 65535) / 65536 && m.protocolVersion == 1 && m.sessionId == 0
  {
    hide Sanitize, Basename;
    SanitizeStable(path);
  }
}
