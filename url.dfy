/** The two uses of the URL parser in photo storage, after the URL Standard (WHATWG):
    serializing `new URL("/fotos/" + name, host).href` for a host given as an origin, and
    reading `path.basename(new URL(filePath).pathname)` back out of an http(s) URL.
    The parser percent-encodes what it copies into the path, the query and the fragment,
    each with its own set of characters, as the UTF-8 bytes of the character. */
module Url {
  import opened Wrappers
  import opened Text

  /** The percent-encode sets of the URL Standard that a special URL uses. */
  datatype EncodeSet = PathSet | QuerySet | FragmentSet

  /** A C0 control or space: what the parser trims from both ends of its input. */
  predicate ControlOrSpace(c: char) {
    c as int <= 0x20
  }

  /** The characters `es` percent-encodes. Every set holds the C0 controls, the space,
      `"`, `<`, `>` and everything above `~`; the special-query set adds `#` and `'`, the
      path set `#`, `?`, `` ` ``, `{` and `}`, the fragment set `` ` ``. */
  predicate InSet(es: EncodeSet, c: char) {
    ControlOrSpace(c) || c as int > 0x7E || c == '"' || c == '<' || c == '>' ||
    match es
    case PathSet => c == '#' || c == '?' || c == '`' || c == '{' || c == '}'
    case QuerySet => c == '#' || c == '\''
    case FragmentSet => c == '`'
  }

  /** The UTF-8 bytes of a character. */
  function Utf8(c: char): (bs: seq<nat>)
    ensures 1 <= |bs| <= 4
    ensures c as int < 0x80 <==> bs == [c as int]
  {
    var n := c as int;
    if n < 0x80 then [n]
    else if n < 0x800 then [0xC0 + n / 64, 0x80 + n % 64]
    else if n < 0x10000 then [0xE0 + n / 4096, 0x80 + n / 64 % 64, 0x80 + n % 64]
    else [0xF0 + n / 262144, 0x80 + n / 4096 % 64, 0x80 + n / 64 % 64, 0x80 + n % 64]
  }

  /** An upper-case hexadecimal digit. */
  function HexDigit(d: nat): (c: char)
    requires d < 16
    ensures '0' <= c <= '9' || 'A' <= c <= 'F'
  {
    if d < 10 then ('0' as int + d) as char else ('A' as int + d - 10) as char
  }

  /** `%XX` for each byte (a byte above 255 keeps only its low eight bits). */
  function Percents(bs: seq<nat>): (r: string)
    ensures |r| == 3 * |bs|
    ensures forall i :: 0 <= i < |r| ==> r[i] == '%' || '0' <= r[i] <= '9' || 'A' <= r[i] <= 'F'
  {
    if bs == [] then []
    else ['%', HexDigit(bs[0] % 256 / 16), HexDigit(bs[0] % 16)] + Percents(bs[1..])
  }

  /** Percent-encoding never yields a character of any set, a slash or a backslash. */
  predicate Clean(c: char) {
    !InSet(PathSet, c) && !InSet(QuerySet, c) && !InSet(FragmentSet, c) && c != '/' && c != '\\'
  }

  function EncodeChar(es: EncodeSet, c: char): (r: string)
    ensures InSet(es, c) ==> forall i :: 0 <= i < |r| ==> Clean(r[i])
    ensures !InSet(es, c) <==> r == [c]
  {
    if InSet(es, c) then Percents(Utf8(c)) else [c]
  }

  /** The UTF-8 percent-encoding of `s` with `es`. */
  function Encode(es: EncodeSet, s: string): (r: string)
    ensures |r| >= |s|
    ensures forall i :: 0 <= i < |r| ==> !InSet(es, r[i])
    ensures '/' !in s ==> '/' !in r
    ensures '\\' !in s ==> '\\' !in r
  {
    if s == [] then [] else EncodeChar(es, s[0]) + Encode(es, s[1..])
  }

  /** No character of `s` is in `es`. */
  predicate Unencoded(es: EncodeSet, s: string) {
    forall i :: 0 <= i < |s| ==> !InSet(es, s[i])
  }

  /** Encoding changes a string exactly when it holds a character of `es`. */
  lemma {:induction false} EncodeIdentity(es: EncodeSet, s: string)
    ensures Encode(es, s) == s <==> Unencoded(es, s)
  {
    if Unencoded(es, s) && s != [] {
      EncodeIdentity(es, s[1..]);
      assert !InSet(es, s[0]);
    }
  }

  /** Encoding twice is encoding once. */
  lemma EncodeIdempotent(es: EncodeSet, s: string)
    ensures Encode(es, Encode(es, s)) == Encode(es, s)
  {
    EncodeIdentity(es, Encode(es, s));
  }

  /** The input with trailing C0 controls and spaces removed. */
  function TrimEnd(s: string): (r: string)
    ensures |r| <= |s| && r == s[..|r|]
    ensures r == [] || !ControlOrSpace(r[|r| - 1])
    ensures (s == [] || !ControlOrSpace(s[|s| - 1])) ==> r == s
  {
    if s != [] && ControlOrSpace(s[|s| - 1]) then TrimEnd(s[..|s| - 1]) else s
  }

  /** The input with leading C0 controls and spaces removed. */
  function TrimStart(s: string): (r: string)
    ensures |r| <= |s| && r == s[|s| - |r|..]
    ensures (s == [] || !ControlOrSpace(s[0])) ==> r == s
  {
    if s != [] && ControlOrSpace(s[0]) then TrimStart(s[1..]) else s
  }

  predicate TabOrNewline(c: char) {
    c == '\t' || c == '\n' || c == '\r'
  }

  /** The input with every tab, line feed and carriage return removed. */
  function RemoveTabNewline(s: string): (r: string)
    ensures |r| <= |s|
    ensures forall i :: 0 <= i < |r| ==> !TabOrNewline(r[i])
    ensures (forall i :: 0 <= i < |s| ==> !TabOrNewline(s[i])) ==> r == s
  {
    if s == [] then []
    else
      var rest := RemoveTabNewline(s[1..]);
      (if TabOrNewline(s[0]) then [] else [s[0]]) + rest
  }

  /** What the parser reads: both ends trimmed, then tabs and newlines removed. */
  function Prepare(s: string): (r: string)
    ensures Printable(s) ==> r == s
  {
    RemoveTabNewline(TrimStart(TrimEnd(s)))
  }

  /** The position of the first character of `s` in `stops`, or `|s|`. */
  function FirstOf(s: string, stops: set<char>): (i: nat)
    ensures i <= |s|
    ensures forall j :: 0 <= j < i ==> s[j] !in stops
    ensures i < |s| ==> s[i] in stops
  {
    if s == [] || s[0] in stops then 0 else 1 + FirstOf(s[1..], stops)
  }

  /** A special URL's path reads a backslash as a slash. */
  function Slashes(s: string): (r: string)
    ensures |r| == |s|
    ensures forall i :: 0 <= i < |s| ==> r[i] == if s[i] == '\\' then '/' else s[i]
  {
    if s == [] then [] else [if s[0] == '\\' then '/' else s[0]] + Slashes(s[1..])
  }

  /** The name as the parser reads it after `/fotos/`: the leading `/fotos/` is never
      trimmed, so only the name's end is, and tabs and newlines are dropped. */
  function Prepared(name: string): string {
    RemoveTabNewline(TrimEnd(name))
  }

  /** Where the path of the prepared name ends: at its first `?` or `#`. */
  function PathEnd(name: string): (i: nat)
    ensures i <= |Prepared(name)|
  {
    FirstOf(Prepared(name), {'?', '#'})
  }

  /** The path part of the name, path-encoded, a backslash read as a slash. */
  function PathOf(name: string): (r: string)
    ensures forall i :: 0 <= i < |r| ==> !InSet(PathSet, r[i]) && r[i] != '\\'
  {
    Encode(PathSet, Slashes(Prepared(name)[..PathEnd(name)]))
  }

  /** A query up to the first `#`, query-encoded, then a fragment, fragment-encoded; `rest`
      is empty or starts with `?` or `#`. */
  function QueryFragment(rest: string): (r: string)
    ensures r == [] <==> rest == []
    ensures r != [] ==> r[0] == '?' || r[0] == '#'
    ensures Printable(r)
  {
    if rest == [] then []
    else if rest[0] == '#' then Marked('#', FragmentSet, rest[1..])
    else
      var j := FirstOf(rest[1..], {'#'});
      var query := Marked('?', QuerySet, rest[1..][..j]);
      if j == |rest[1..]| then query
      else
        var fragment := Marked('#', FragmentSet, rest[1..][j + 1..]);
        PrintableConcat(query, fragment);
        query + fragment
  }

  /** A query or fragment: its mark, then its text encoded with the given set. */
  function Marked(mark: char, es: EncodeSet, s: string): (r: string)
    requires !ControlOrSpace(mark)
    ensures r != [] && r[0] == mark && Printable(r)
  {
    [mark] + Encode(es, s)
  }

  /** What `new URL("/fotos/" + name, host)` appends to the host after `/fotos/`: the path
      part of the name, then its query and fragment. */
  function Tail(name: string): (r: string)
    ensures |PathOf(name)| <= |r| && r[..|PathOf(name)|] == PathOf(name)
    ensures |PathOf(name)| < |r| ==> r[|PathOf(name)|] == '?' || r[|PathOf(name)|] == '#'
    ensures Printable(r)
  {
    var p := PathOf(name);
    var q := QueryFragment(Prepared(name)[PathEnd(name)..]);
    assert Printable(p);
    PrintableConcat(p, q);
    assert (p + q)[..|p|] == p;
    p + q
  }

  /** No C0 control and no space. */
  predicate Printable(s: string) {
    forall i :: 0 <= i < |s| ==> !ControlOrSpace(s[i])
  }

  lemma PrintableConcat(a: string, b: string)
    requires Printable(a) && Printable(b)
    ensures Printable(a + b)
  {
  }

  /** `new URL("/fotos/" + filename, host).href`, for a host given as an origin. */
  function PublicUrl(host: string, filename: string): string {
    host + "/fotos/" + Tail(filename)
  }

  predicate OriginChar(c: char) {
    'a' <= c <= 'z' || '0' <= c <= '9' || c == '.' || c == '-' || c == ':'
  }

  /** An http or https origin in its serialized form: a lower-case host, a port perhaps,
      and no path. */
  predicate IsOrigin(host: string) {
    OriginAfter(host, "http://") || OriginAfter(host, "https://")
  }

  /** `host` is `scheme` followed by a non-empty authority. */
  predicate OriginAfter(host: string, scheme: string) {
    |scheme| < |host| && host[..|scheme|] == scheme &&
    forall i :: |scheme| <= i < |host| ==> OriginChar(host[i])
  }

  /** `s` with every trailing `c` removed. */
  function StripTrailing(s: string, c: char): (r: string)
    ensures |r| <= |s|
  {
    if s != [] && s[|s| - 1] == c then StripTrailing(s[..|s| - 1], c) else s
  }

  /** What stripping leaves: a prefix of `s` that does not end with `c`, before a run of
      `c`s. */
  lemma {:induction false} StripTrailingFacts(s: string, c: char)
    ensures var r := StripTrailing(s, c);
      r == s[..|r|] && (r == [] || r[|r| - 1] != c) &&
      forall i :: |r| <= i < |s| ==> s[i] == c
  {
    if s != [] && s[|s| - 1] == c {
      StripTrailingFacts(s[..|s| - 1], c);
    }
  }

  /** `path.basename(pathname)`: the last segment, trailing slashes ignored. */
  function Basename(pathname: string): (r: string)
    ensures '/' !in r
  {
    AfterLast(StripTrailing(pathname, '/'), '/')
  }

  /** The basename is made of the path's own characters, and is empty only when the path
      is all slashes. */
  lemma BasenameChars(pathname: string)
    ensures forall i :: 0 <= i < |Basename(pathname)| ==> Basename(pathname)[i] in pathname
    ensures (exists i :: 0 <= i < |pathname| && pathname[i] != '/') ==> Basename(pathname) != []
  {
    var stripped := StripTrailing(pathname, '/');
    StripTrailingFacts(pathname, '/');
    var r := AfterLast(stripped, '/');
    forall i | 0 <= i < |r| ensures r[i] in pathname {
      assert r[i] == stripped[|stripped| - |r| + i] == pathname[|stripped| - |r| + i];
    }
    if exists i :: 0 <= i < |pathname| && pathname[i] != '/' {
      var i :| 0 <= i < |pathname| && pathname[i] != '/';
      assert i < |stripped|;
      assert stripped[|stripped| - 1] != '/';
    }
  }

  /** `s` without its leading slashes and backslashes. */
  function SkipSlashes(s: string): (r: string)
    ensures |r| <= |s| && r == s[|s| - |r|..]
    ensures r == [] || (r[0] != '/' && r[0] != '\\')
  {
    if s != [] && (s[0] == '/' || s[0] == '\\') then SkipSlashes(s[1..]) else s
  }

  /** `s` starts with `p`, ASCII letters compared without case. */
  predicate StartsCaseless(s: string, p: string) {
    |p| <= |s| && forall i :: 0 <= i < |p| ==> LowerChar(s[i]) == p[i]
  }

  /** The length of `s`'s scheme and colon when it is http or https, in any case; 0 when
      it is neither. */
  function HttpSchemeLength(s: string): (k: nat)
    ensures k == 0 || k == 5 || k == 6
    ensures k <= |s|
  {
    if StartsCaseless(s, "http:") then 5
    else if StartsCaseless(s, "https:") then 6
    else 0
  }

  /** `path.basename(new URL(u).pathname)` for an http or https URL: after the scheme and
      its slashes comes a non-empty host, then the path up to the first `?` or `#`,
      path-encoded (`/` when it is empty); `None` when the parser throws. */
  function UrlBasename(u: string): (r: Option<string>)
    ensures r.Some? ==> '/' !in r.value
  {
    var t := Prepare(u);
    var k := HttpSchemeLength(t);
    if k == 0 then None
    else
      var a := SkipSlashes(t[k..]);
      var h := FirstOf(a, {'/', '\\', '?', '#'});
      if h == 0 then None
      else
        var rest := a[h..];
        var p := rest[..FirstOf(rest, {'?', '#'})];
        Some(Basename(if p == [] then "/" else Encode(PathSet, Slashes(p))))
  }

  /** No character of `s` is one the path encodes, and none is a backslash. */
  predicate PathClean(s: string) {
    forall i :: 0 <= i < |s| ==> !InSet(PathSet, s[i]) && s[i] != '\\'
  }

  /** The last path segment of the URL a name is published under. */
  function UrlName(name: string): (r: string)
    ensures r != []
    ensures PathClean(r) && '/' !in r
  {
    var pathname := "/fotos/" + PathOf(name);
    FotosClean();
    PathCleanConcat("/fotos/", PathOf(name));
    assert pathname[5] == 's';
    var r := Basename(pathname);
    BasenameChars(pathname);
    PathCleanPart(pathname, r);
    r
  }

  lemma PathCleanPart(s: string, r: string)
    requires PathClean(s) && forall i :: 0 <= i < |r| ==> r[i] in s
    ensures PathClean(r)
  {
    forall i | 0 <= i < |r| ensures !InSet(PathSet, r[i]) && r[i] != '\\' {
      var j :| 0 <= j < |s| && s[j] == r[i];
    }
  }

  /** A name that reads the same in its URL: not empty, and nothing that the path encodes,
      trims, splits on or cuts at. */
  predicate UrlPlain(name: string) {
    name != [] && PathClean(name) && '/' !in name
  }

  /** A name is its own last URL segment exactly when it is plain. */
  lemma UrlNameIdentity(name: string)
    ensures UrlName(name) == name <==> UrlPlain(name)
  {
    if UrlPlain(name) {
      PlainPrepared(name);
      PlainPath(name);
      var pathname := "/fotos/" + name;
      assert name[|name| - 1] in name;
      assert StripTrailing(pathname, '/') == pathname;
      assert pathname == "/fotos" + ['/'] + name;
      AfterLastOfJoin("/fotos", '/', name);
    }
  }

  lemma PlainPrepared(name: string)
    requires UrlPlain(name)
    ensures Prepared(name) == name
  {
    assert name[|name| - 1] in name;
    assert TrimEnd(name) == name;
    assert forall i :: 0 <= i < |name| ==> name[i] in name;
  }

  lemma PlainPath(name: string)
    requires UrlPlain(name) && Prepared(name) == name
    ensures PathOf(name) == name
  {
    assert forall i :: 0 <= i < |name| ==> name[i] in name;
    FirstOfPrefix(name, [], {'?', '#'});
    assert name + [] == name;
    assert Slashes(name) == name;
    EncodeIdentity(PathSet, name);
  }

  lemma OriginPrintable(host: string)
    requires IsOrigin(host)
    ensures Printable(host)
  {
    var k := if OriginAfter(host, "http://") then 7 else 8;
    forall i | 0 <= i < |host| ensures !ControlOrSpace(host[i]) {
      if i < k {
        assert host[i] == host[..k][i];
      }
    }
  }

  /** Every character of a published URL is printable, so preparing it changes nothing. */
  lemma PublicUrlPrepared(host: string, name: string)
    requires IsOrigin(host)
    ensures Prepare(PublicUrl(host, name)) == PublicUrl(host, name)
  {
    OriginPrintable(host);
    PrintableConcat(host, "/fotos/");
    PrintableConcat(host + "/fotos/", Tail(name));
  }

  /** The scheme of a URL that starts with an origin is read as http or https, and its two
      slashes follow. */
  lemma OriginScheme(host: string, rest: string)
    requires IsOrigin(host)
    ensures var k := if OriginAfter(host, "http://") then 7 else 8;
      HttpSchemeLength(host + rest) == k - 2 &&
      (host + rest)[k - 2..] == "//" + (host[k..] + rest)
  {
    var u := host + rest;
    var k := if OriginAfter(host, "http://") then 7 else 8;
    assert u[..k] == host[..k];
    assert forall i :: 0 <= i < k ==> u[i] == host[..k][i];
    if k == 7 {
      assert StartsCaseless(u, "http:");
    } else {
      assert LowerChar(u[4]) == 's';
      assert StartsCaseless(u, "https:");
    }
    assert u[k..] == host[k..] + rest;
    assert u[k - 2..] == u[k - 2..k] + u[k..];
  }

  /** Past the scheme's slashes, a URL that starts with an origin holds the authority, up to
      the rest, which starts with a slash. */
  lemma OriginAuthority(host: string, rest: string)
    requires IsOrigin(host) && rest != [] && rest[0] == '/'
    ensures var k := if OriginAfter(host, "http://") then 7 else 8;
      var a := SkipSlashes((host + rest)[k - 2..]);
      a == host[k..] + rest && FirstOf(a, {'/', '\\', '?', '#'}) == |host| - k
  {
    var k := if OriginAfter(host, "http://") then 7 else 8;
    OriginScheme(host, rest);
    var authority := host[k..];
    assert authority[0] == host[k];
    SkipTwoSlashes(authority + rest);
    assert forall i :: 0 <= i < |authority| ==> authority[i] == host[k + i];
    FirstOfPrefix(authority, rest, {'/', '\\', '?', '#'});
  }

  /** The path of `/fotos/` + a tail that starts with a clean path, followed by nothing or a
      query or a fragment, is `/fotos/` + that path. */
  lemma FotosPath(path: string, tail: string)
    requires PathClean(path) && |path| <= |tail| && tail[..|path|] == path
    requires |path| < |tail| ==> tail[|path|] == '?' || tail[|path|] == '#'
    ensures var rest := "/fotos/" + tail;
      rest[..FirstOf(rest, {'?', '#'})] == "/fotos/" + path
  {
    var p := "/fotos/" + path;
    assert "/fotos/" + tail == p + tail[|path|..];
    FotosClean();
    PathCleanConcat("/fotos/", path);
    PathCleanHasNoStop(p);
    FirstOfPrefix(p, tail[|path|..], {'?', '#'});
  }

  lemma FotosClean()
    ensures PathClean("/fotos/") && Printable("/fotos/")
  {
  }

  lemma PathCleanConcat(a: string, b: string)
    requires PathClean(a) && PathClean(b)
    ensures PathClean(a + b)
  {
  }

  lemma PathCleanHasNoStop(s: string)
    requires PathClean(s)
    ensures forall i :: 0 <= i < |s| ==> s[i] != '?' && s[i] != '#' && s[i] != '\\'
  {
    forall i | 0 <= i < |s| ensures s[i] != '?' && s[i] != '#' && s[i] != '\\' {
      assert !InSet(PathSet, s[i]);
    }
  }

  /** Reading back the URL a name is published under gives the name's last URL segment. */
  lemma UrlBasenameOfPublicUrl(host: string, name: string)
    requires IsOrigin(host)
    ensures UrlBasename(PublicUrl(host, name)) == Some(UrlName(name))
  {
    ReadBack(host, PathOf(name), Tail(name));
  }

  /** An origin, `/fotos/` and a tail that starts with a clean path, followed by nothing or a
      query or a fragment, is read back as the last segment of `/fotos/` + that path. */
  lemma ReadBack(host: string, path: string, tail: string)
    requires IsOrigin(host) && Printable(tail) && PathClean(path)
    requires |path| <= |tail| && tail[..|path|] == path
    requires |path| < |tail| ==> tail[|path|] == '?' || tail[|path|] == '#'
    ensures UrlBasename(host + "/fotos/" + tail) == Some(Basename("/fotos/" + path))
  {
    var rest := "/fotos/" + tail;
    assert host + "/fotos/" + tail == host + rest;
    OriginPrintable(host);
    FotosClean();
    PrintableConcat("/fotos/", tail);
    PrintableConcat(host, rest);
    OriginScheme(host, rest);
    OriginAuthority(host, rest);
    var k := if OriginAfter(host, "http://") then 7 else 8;
    var a := host[k..] + rest;
    assert a[|host| - k..] == rest;
    FotosPath(path, tail);
    PathCleanConcat("/fotos/", path);
    PathCleanFixed("/fotos/" + path);
  }

  /** A clean path is left alone by the backslash reading and by path-encoding. */
  lemma PathCleanFixed(p: string)
    requires PathClean(p)
    ensures Slashes(p) == p && Encode(PathSet, p) == p
  {
    PathCleanHasNoStop(p);
    assert Unencoded(PathSet, p);
    EncodeIdentity(PathSet, p);
  }

  lemma SkipTwoSlashes(a: string)
    requires a != [] && a[0] != '/' && a[0] != '\\'
    ensures SkipSlashes("//" + a) == a
  {
    assert ("//" + a)[0] == '/';
    assert ("//" + a)[1..] == "/" + a;
    assert SkipSlashes("//" + a) == SkipSlashes("/" + a);
    assert ("/" + a)[0] == '/';
    assert ("/" + a)[1..] == a;
    assert SkipSlashes("/" + a) == SkipSlashes(a);
  }

  /** The first stop in `a + b` is where `b` starts, when `a` holds none and `b` starts with
      one or is empty. */
  lemma {:induction false} FirstOfPrefix(a: string, b: string, stops: set<char>)
    requires forall i :: 0 <= i < |a| ==> a[i] !in stops
    requires b == [] || b[0] in stops
    ensures FirstOf(a + b, stops) == |a|
  {
    if a != [] {
      assert (a + b)[0] == a[0];
      assert (a + b)[1..] == a[1..] + b;
      FirstOfPrefix(a[1..], b, stops);
    } else {
      assert a + b == b;
    }
  }
}
