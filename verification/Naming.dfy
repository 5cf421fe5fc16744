/** File names: the unpadded base64url form of a key name, blob paths and temporary names. */
module Naming {
  import opened Bytes

  type sextet = d: int | 0 <= d < 64

  // ----- base64url without padding, section 5 of RFC 4648

  predicate IsLetter(c: char) {
    'A' <= c <= 'Z' || 'a' <= c <= 'z' || '0' <= c <= '9' || c == '-' || c == '_'
  }

  function Letter(d: sextet): char {
    if d < 26 then 'A' + d as char
    else if d < 52 then 'a' + (d - 26) as char
    else if d < 62 then '0' + (d - 52) as char
    else if d == 62 then '-' else '_'
  }

  function Digit(c: char): sextet
    requires IsLetter(c)
  {
    if 'A' <= c <= 'Z' then (c - 'A') as int
    else if 'a' <= c <= 'z' then (c - 'a') as int + 26
    else if '0' <= c <= '9' then (c - '0') as int + 52
    else if c == '-' then 62 else 63
  }

  /** Three bytes as four groups of six bits. */
  function Group(a: byte, b: byte, c: byte): (g: seq<sextet>)
    ensures |g| == 4
  {
    [a / 4, a % 4 * 16 + b / 16, b % 16 * 4 + c / 64, c % 64]
  }

  /** Six bits at a time, the last group filled up with zero bits. */
  function Sextets(b: bytes): (s: seq<sextet>)
  {
    if b == [] then []
    else if |b| == 1 then [b[0] / 4, b[0] % 4 * 16]
    else if |b| == 2 then [b[0] / 4, b[0] % 4 * 16 + b[1] / 16, b[1] % 16 * 4]
    else Group(b[0], b[1], b[2]) + Sextets(b[3..])
  }

  function EncodeName(b: bytes): string {
    var s := Sextets(b);
    seq(|s|, i requires 0 <= i < |s| => Letter(s[i]))
  }

  function Byte0(a: int, b: int): byte
    requires 0 <= a < 64 && 0 <= b < 64
  {
    a * 4 + b / 16
  }

  function Byte1(b: int, c: int): byte
    requires 0 <= b < 64 && 0 <= c < 64
  {
    b % 16 * 16 + c / 4
  }

  function Byte2(c: int, d: int): byte
    requires 0 <= c < 64 && 0 <= d < 64
  {
    c % 4 * 64 + d
  }

  /** The standard's decoder, an independent reading of the encoded form. */
  function Octets(s: seq<sextet>): Option<bytes> {
    if s == [] then Some([])
    else if |s| == 1 then None
    else if |s| == 2 then Some([Byte0(s[0], s[1])])
    else if |s| == 3 then Some([Byte0(s[0], s[1]), Byte1(s[1], s[2])])
    else match Octets(s[4..])
      case None => None
      case Some(rest) => Some([Byte0(s[0], s[1]), Byte1(s[1], s[2]), Byte2(s[2], s[3])] + rest)
  }

  function DecodeName(s: string): Option<bytes> {
    if forall i :: 0 <= i < |s| ==> IsLetter(s[i])
    then Octets(seq(|s|, i requires 0 <= i < |s| => Digit(s[i])))
    else None
  }

  lemma Byte0Across(a: byte, b: byte)
    ensures Byte0(a / 4, a % 4 * 16 + b / 16) == a
  {
    assert (a % 4 * 16 + b / 16) / 16 == a % 4;
  }

  lemma Byte1Across(a: byte, b: byte, c: byte)
    ensures Byte1(a % 4 * 16 + b / 16, b % 16 * 4 + c / 64) == b
  {
    assert (a % 4 * 16 + b / 16) % 16 == b / 16;
    assert (b % 16 * 4 + c / 64) / 4 == b % 16;
  }

  lemma Byte2Across(b: byte, c: byte)
    ensures Byte2(b % 16 * 4 + c / 64, c % 64) == c
  {
    assert (b % 16 * 4 + c / 64) % 4 == c / 64;
  }

  lemma BytesOfGroup(a: byte, b: byte, c: byte)
    ensures var g := Group(a, b, c); Byte0(g[0], g[1]) == a && Byte1(g[1], g[2]) == b && Byte2(g[2], g[3]) == c
  {
    hide Byte0, Byte1, Byte2;
    Byte0Across(a, b);
    Byte1Across(a, b, c);
    Byte2Across(b, c);
  }

  lemma OctetsOfFour(g: seq<sextet>, rest: seq<sextet>, tail: bytes)
    requires |g| == 4 && Octets(rest) == Some(tail)
    ensures Octets(g + rest) == Some([Byte0(g[0], g[1]), Byte1(g[1], g[2]), Byte2(g[2], g[3])] + tail)
  {
    hide Byte0, Byte1, Byte2;
    assert (g + rest)[4..] == rest;
  }

  lemma FirstThree(b: bytes)
    requires |b| >= 3
    ensures b == [b[0], b[1], b[2]] + b[3..]
  {
    assert b[..3] == [b[0], b[1], b[2]];
    assert b == b[..3] + b[3..];
  }

  lemma SextetsOfGroup(b: bytes)
    requires |b| >= 3
    ensures Sextets(b) == Group(b[0], b[1], b[2]) + Sextets(b[3..])
  {
    hide Group;
  }

  lemma OctetsOfGroup(a: byte, b: byte, c: byte, tail: bytes)
    requires Octets(Sextets(tail)) == Some(tail)
    ensures Octets(Group(a, b, c) + Sextets(tail)) == Some([a, b, c] + tail)
  {
    hide Sextets, Octets, Group, Byte0, Byte1, Byte2;
    BytesOfGroup(a, b, c);
    OctetsOfFour(Group(a, b, c), Sextets(tail), tail);
  }

  lemma {:induction false} OctetsOfSextets(b: bytes)
    ensures Octets(Sextets(b)) == Some(b)
  {
    hide Group, Byte0, Byte1, Byte2;
    if b == [] {
    } else if |b| == 1 {
      Byte0Across(b[0], 0);
      assert b == [b[0]] && b[0] % 4 * 16 + 0 / 16 == b[0] % 4 * 16;
    } else if |b| == 2 {
      Byte0Across(b[0], b[1]);
      Byte1Across(b[0], b[1], 0);
      assert b == [b[0], b[1]] && b[1] % 16 * 4 + 0 / 64 == b[1] % 16 * 4;
    } else {
      OctetsOfSextets(b[3..]);
      OctetsOfGroup(b[0], b[1], b[2], b[3..]);
      SextetsOfGroup(b);
      FirstThree(b);
    }
  }

  /** Encoded names use the URL alphabet only, and decode back to the name for every byte string. */
  lemma NameRoundTrip(b: bytes)
    ensures forall i :: 0 <= i < |EncodeName(b)| ==> IsLetter(EncodeName(b)[i])
    ensures DecodeName(EncodeName(b)) == Some(b)
  {
    var s, e := Sextets(b), EncodeName(b);
    forall i | 0 <= i < |s| ensures IsLetter(e[i]) && Digit(e[i]) == s[i] { }
    assert seq(|e|, i requires 0 <= i < |e| => Digit(e[i])) == s;
    OctetsOfSextets(b);
  }

  // ----- names inside the store directory

  const SUFFIX := ".tpmkey"
  const TEMP_PREFIX := ".tpmkey-"

  /** The last element of blobPath. */
  function BlobFile(name: bytes): string {
    EncodeName(name) + SUFFIX
  }

  /** What os.CreateTemp makes of the pattern ".tpmkey-*": the prefix and a random decimal number. */
  predicate IsTempFile(f: string) {
    |f| > |TEMP_PREFIX| && TEMP_PREFIX <= f && forall i :: |TEMP_PREFIX| <= i < |f| ==> '0' <= f[i] <= '9'
  }

  lemma BlobFileInjective(a: bytes, b: bytes)
    requires BlobFile(a) == BlobFile(b)
    ensures a == b
  {
    assert EncodeName(a) == BlobFile(a)[..|BlobFile(a)| - |SUFFIX|];
    assert EncodeName(b) == BlobFile(b)[..|BlobFile(b)| - |SUFFIX|];
    NameRoundTrip(a);
    NameRoundTrip(b);
  }

  /** A blob never has a temporary file's name, whatever the key name and the random number. */
  lemma BlobFileIsNotTemp(name: bytes)
    ensures !IsTempFile(BlobFile(name))
  {
    var f := BlobFile(name);
    assert f[|f| - 1] == SUFFIX[|SUFFIX| - 1] == 'y';
  }

  /** A blob's file name is a single plain path element, also for the empty key name. */
  lemma BlobFileIsElement(name: bytes)
    ensures '/' !in BlobFile(name) && BlobFile(name) !in ["", ".", ".."]
  {
    NameRoundTrip(name);
    var f := BlobFile(name);
    forall i | 0 <= i < |f| ensures f[i] != '/' {
      if i < |EncodeName(name)| {
        assert f[i] == EncodeName(name)[i];
      } else {
        assert f[i] == SUFFIX[i - |EncodeName(name)|];
      }
    }
    assert |f| >= 7;
  }

  // ----- filepath.Join and filepath.Clean

  /** A cleaned path: `rooted` when it starts at "/", then its elements. */
  datatype Path = Path(rooted: bool, elements: seq<string>)

  /** One more character in front of what has been split already. */
  function Attach(c: char, parts: seq<string>): (r: seq<string>)
    requires |parts| > 0
    ensures |r| > 0
  {
    if c == '/' then [""] + parts else [[c] + parts[0]] + parts[1..]
  }

  function Split(s: string): (parts: seq<string>)
    ensures |parts| > 0
  {
    if s == "" then [""] else Attach(s[0], Split(s[1..]))
  }

  /** One step of Clean: "." and empty elements vanish, ".." takes back an element where it can. */
  function CleanStep(rooted: bool, done: seq<string>, part: string): seq<string> {
    if part == "" || part == "." then done
    else if part != ".." then done + [part]
    else if done != [] && done[|done| - 1] != ".." then done[..|done| - 1]
    else if rooted then done else done + [".."]
  }

  function CleanParts(rooted: bool, done: seq<string>, parts: seq<string>): seq<string>
    decreases |parts|
  {
    if parts == [] then done else CleanParts(rooted, CleanStep(rooted, done, parts[0]), parts[1..])
  }

  function Clean(s: string): Path {
    var rooted := s != "" && s[0] == '/';
    Path(rooted, CleanParts(rooted, [], Split(s)))
  }

  /** blobPath: None when the configuration directory cannot be found. */
  function BlobPath(config: Option<string>, name: bytes): Option<Path> {
    match config
    case None => None
    case Some(dir) => Some(Clean(dir + "/" + "key-protecc" + "/" + BlobFile(name)))
  }

  function StorePath(dir: string): Path {
    Clean(dir + "/" + "key-protecc")
  }

  lemma {:induction false} SplitPlain(s: string)
    requires '/' !in s
    ensures Split(s) == [s]
  {
    if s == "" {
    } else {
      SplitPlain(s[1..]);
      assert s == [s[0]] + s[1..];
    }
  }

  lemma AttachAppend(c: char, front: seq<string>, back: seq<string>)
    requires |front| > 0
    ensures Attach(c, front + back) == Attach(c, front) + back
  {
    assert (front + back)[0] == front[0] && (front + back)[1..] == front[1..] + back;
  }

  lemma {:induction false} SplitJoin(a: string, b: string)
    ensures Split(a + "/" + b) == Split(a) + Split(b)
  {
    var s := a + "/" + b;
    if a == "" {
      assert s == "/" + b;
      assert s[1..] == b;
    } else {
      SplitJoin(a[1..], b);
      assert s[0] == a[0] && s[1..] == a[1..] + "/" + b;
      AttachAppend(s[0], Split(a[1..]), Split(b));
    }
  }

  lemma {:induction false} CleanAppend(rooted: bool, done: seq<string>, parts: seq<string>, last: string)
    ensures CleanParts(rooted, done, parts + [last]) == CleanStep(rooted, CleanParts(rooted, done, parts), last)
    decreases |parts|
  {
    if parts == [] {
      assert CleanParts(rooted, done, [last]) == CleanParts(rooted, CleanStep(rooted, done, last), [last][1..]);
    } else {
      assert (parts + [last])[1..] == parts[1..] + [last];
      CleanAppend(rooted, CleanStep(rooted, done, parts[0]), parts[1..], last);
    }
  }

  lemma CleanElement(dir: string, element: string)
    requires dir != "" && '/' !in element && element !in ["", ".", ".."]
    ensures Clean(dir + "/" + element) == Path(Clean(dir).rooted, Clean(dir).elements + [element])
  {
    SplitJoin(dir, element);
    SplitPlain(element);
    CleanAppend(Clean(dir).rooted, [], Split(dir), element);
  }

  /** Every key lies directly in the one store directory, and different names at different paths. */
  lemma BlobPathContained(dir: string, name: bytes)
    requires dir != ""
    ensures BlobPath(Some(dir), name)
            == Some(Path(StorePath(dir).rooted, StorePath(dir).elements + [BlobFile(name)]))
    ensures StorePath(dir) == Path(Clean(dir).rooted, Clean(dir).elements + ["key-protecc"])
  {
    BlobFileIsElement(name);
    CleanElement(dir, "key-protecc");
    CleanElement(dir + "/" + "key-protecc", BlobFile(name));
  }

  lemma BlobPathInjective(dir: string, a: bytes, b: bytes)
    requires dir != "" && BlobPath(Some(dir), a) == BlobPath(Some(dir), b)
    ensures a == b
  {
    BlobPathContained(dir, a);
    BlobPathContained(dir, b);
    var base := StorePath(dir).elements;
    assert (base + [BlobFile(a)])[|base|] == (base + [BlobFile(b)])[|base|];
    BlobFileInjective(a, b);
  }

  // ----- names and paths in literal characters

  /** Two vectors: the six-byte one of section 10 of RFC 4648, and one with both characters of the URL alphabet. */
  lemma Vectors()
    ensures EncodeName([0x66, 0x6F, 0x6F, 0x62, 0x61, 0x72]) == "Zm9vYmFy"
    ensures EncodeName([0xFB, 0xF0]) == "-_A"
  {
    var foobar: bytes := [0x66, 0x6F, 0x6F, 0x62, 0x61, 0x72];
    assert foobar[3..] == [0x62, 0x61, 0x72];
    assert Sextets(foobar[3..]) == [24, 38, 5, 50] + Sextets(foobar[3..][3..]);
    assert Sextets(foobar) == [25, 38, 61, 47, 24, 38, 5, 50];
    assert Sextets([0xFB, 0xF0]) == [62, 63, 0];
  }

  /** A temporary name is ".tpmkey-" and then digits. */
  lemma TempFileIff(f: string)
    ensures IsTempFile(f)
            <==> |f| > 8 && f[..8] == ".tpmkey-" && forall i :: 8 <= i < |f| ==> '0' <= f[i] <= '9'
  {
    assert |f| >= 8 ==> (TEMP_PREFIX <= f <==> f[..8] == TEMP_PREFIX);
  }

  /** The elements joined by "/". */
  function Join(parts: seq<string>): string
    requires parts != []
  {
    if |parts| == 1 then parts[0] else Join(parts[..|parts| - 1]) + "/" + parts[|parts| - 1]
  }

  predicate Plain(part: string) {
    '/' !in part && part !in ["", ".", ".."]
  }

  /** A path is rooted exactly when it begins with "/". */
  lemma CleanRooted(s: string)
    ensures Clean(s).rooted <==> |s| > 0 && s[0] == '/'
  {
  }

  /** What filepath.Clean does with an empty, a "." and a ".." element at the end of a path. */
  lemma CleanSpecial(dir: string)
    requires dir != ""
    ensures Clean(dir + "/" + "") == Clean(dir) == Clean(dir + "/" + ".")
    ensures var Path(rooted, elements) := Clean(dir);
            Clean(dir + "/" + "..")
            == Path(rooted,
                    if elements != [] && elements[|elements| - 1] != ".." then elements[..|elements| - 1]
                    else if rooted then elements
                    else elements + [".."])
  {
    CleanLast(dir, "");
    CleanLast(dir, ".");
    CleanLast(dir, "..");
  }

  lemma CleanLast(dir: string, last: string)
    requires dir != "" && '/' !in last
    ensures Clean(dir + "/" + last) == Path(Clean(dir).rooted, CleanStep(Clean(dir).rooted, Clean(dir).elements, last))
  {
    hide CleanStep;
    SplitJoin(dir, last);
    SplitPlain(last);
    CleanAppend(Clean(dir).rooted, [], Split(dir), last);
  }

  lemma {:induction false} CleanRelative(parts: seq<string>)
    requires parts != [] && forall p :: p in parts ==> Plain(p)
    ensures Join(parts) != "" && Clean(Join(parts)) == Path(false, parts)
  {
    hide Split;
    assert parts[|parts| - 1] in parts;
    if |parts| == 1 {
      SplitPlain(parts[0]);
      CleanOne(false, parts[0]);
      assert parts == [parts[0]];
    } else {
      var front, last := parts[..|parts| - 1], parts[|parts| - 1];
      CleanRelative(front);
      CleanElement(Join(front), last);
      assert parts == front + [last];
    }
  }

  lemma CleanOne(rooted: bool, part: string)
    requires Plain(part)
    ensures CleanParts(rooted, [], [part]) == [part]
  {
    assert CleanParts(rooted, [part], [part][1..]) == [part];
  }

  lemma {:induction false} CleanAbsolute(parts: seq<string>)
    requires parts != [] && forall p :: p in parts ==> Plain(p)
    ensures Clean("/" + Join(parts)) == Path(true, parts)
  {
    hide Split;
    assert parts[|parts| - 1] in parts;
    if |parts| == 1 {
      RootElement(parts[0]);
      assert parts == [parts[0]];
    } else {
      var front, last := parts[..|parts| - 1], parts[|parts| - 1];
      CleanAbsolute(front);
      CleanElement("/" + Join(front), last);
      assert "/" + Join(front) + "/" + last == "/" + Join(parts);
      assert parts == front + [last];
    }
  }

  lemma RootElement(part: string)
    requires Plain(part)
    ensures Clean("/" + part) == Path(true, [part])
  {
    SplitJoin("", part);
    assert "" + "/" + part == "/" + part;
    assert Split("") == [""];
    hide Split;
    SplitPlain(part);
    assert [""] + [part] == ["", part];
    assert CleanParts(true, [], ["", part]) == CleanParts(true, CleanStep(true, [], ""), ["", part][1..]);
    assert ["", part][1..] == [part];
    CleanOne(true, part);
  }

  /** Where the key of a name is, when the configuration directory is a plain path. */
  lemma BlobPathPlain(rooted: bool, parts: seq<string>, name: bytes)
    requires parts != [] && forall p :: p in parts ==> Plain(p)
    ensures BlobPath(Some((if rooted then "/" else "") + Join(parts)), name)
            == Some(Path(rooted, parts + ["key-protecc", EncodeName(name) + ".tpmkey"]))
  {
    hide Clean, BlobFile, Split;
    var dir := (if rooted then "/" else "") + Join(parts);
    CleanRelative(parts);
    if rooted { CleanAbsolute(parts); } else { assert dir == Join(parts); }
    BlobPathContained(dir, name);
    BlobFileIs(name);
    assert parts + ["key-protecc"] + [BlobFile(name)] == parts + ["key-protecc", BlobFile(name)];
  }

  lemma BlobFileIs(name: bytes)
    ensures BlobFile(name) == EncodeName(name) + ".tpmkey"
  {
  }
}
