/** The request path builder of src/server.js. */
module Server {
  import opened Common
  import opened Text

  /** The `profiles` option: absent (or another falsy value), one profile
      string, or an array of profile names. */
  datatype Profiles = NoProfiles | Profile(name: string) | ProfileList(items: seq<string>)

  /** JavaScript truthiness of a profiles value: no value and the empty
      string are falsy; every array is truthy. */
  predicate ProfilesFalsy(p: Profiles)
  {
    p.NoProfiles? || (p.Profile? && p.name == "")
  }

  /** JavaScript truthiness of the `lbl` option. */
  predicate LabelTruthy(lbl: Option<string>)
  {
    lbl.Some? && lbl.value != ""
  }

  /** Only an array can give an empty profiles string; an array of
      comma-free names is recovered by splitting the string at ','. */
  function BuildProfilesString(profiles: Profiles): (r: string)
    ensures r == "" ==> profiles.ProfileList?
    ensures profiles.ProfileList? && |profiles.items| >= 1 &&
            (forall i :: 0 <= i < |profiles.items| ==> ',' !in profiles.items[i]) ==>
      Split(r, ',') == profiles.items
  {
    if ProfilesFalsy(profiles) then "default"
    else if profiles.ProfileList? then
      var items := profiles.items;
      if |items| >= 1 && forall i :: 0 <= i < |items| ==> ',' !in items[i] then
        SplitJoin(items, ','); Join(items, ',')
      else Join(items, ',')
    else profiles.name
  }

  // ---------------------------------------------------------------------
  // encodeURIComponent, as the ECMAScript language specification defines it

  type Byte = b: int | 0 <= b < 256

  /** The characters encodeURIComponent leaves as they are. */
  predicate Unreserved(c: char)
  {
    ('A' <= c <= 'Z') || ('a' <= c <= 'z') || ('0' <= c <= '9') || c in "-_.!~*'()"
  }

  /** The UTF-8 bytes of one code point. */
  function Utf8(c: char): (bytes: seq<Byte>)
    ensures 1 <= |bytes| <= 4
  {
    var n := c as int;
    if n < 0x80 then [n]
    else if n < 0x800 then [0xC0 + n / 0x40, 0x80 + n % 0x40]
    else if n < 0x1_0000 then [0xE0 + n / 0x1000, 0x80 + (n / 0x40) % 0x40, 0x80 + n % 0x40]
    else [0xF0 + n / 0x4_0000, 0x80 + (n / 0x1000) % 0x40, 0x80 + (n / 0x40) % 0x40, 0x80 + n % 0x40]
  }

  function HexDigit(d: int): char
    requires 0 <= d < 16
  {
    "0123456789ABCDEF"[d]
  }

  predicate IsHexDigit(c: char)
  {
    ('0' <= c <= '9') || ('A' <= c <= 'F')
  }

  /** `%XY` for one byte, upper-case hexadecimal. */
  function Escape(b: Byte): (r: string)
    ensures |r| == 3 && r[0] == '%' && IsHexDigit(r[1]) && IsHexDigit(r[2])
  {
    ['%', HexDigit(b / 16), HexDigit(b % 16)]
  }

  /** The escapes of a byte sequence, one after the other. */
  function PercentEncode(bytes: seq<Byte>): (r: string)
    ensures |r| == 3 * |bytes|
    ensures forall k :: 0 <= k < |r| ==> r[k] == '%' || IsHexDigit(r[k])
  {
    if bytes == [] then "" else Escape(bytes[0]) + PercentEncode(bytes[1..])
  }

  function EncodeURIComponent(s: string): (r: string)
    ensures forall k :: 0 <= k < |r| ==> Unreserved(r[k]) || r[k] == '%'
  {
    if s == [] then ""
    else
      var head := if Unreserved(s[0]) then [s[0]] else PercentEncode(Utf8(s[0]));
      assert forall k :: 0 <= k < |head| ==> Unreserved(head[k]) || head[k] == '%' || IsHexDigit(head[k]);
      head + EncodeURIComponent(s[1..])
  }

  /** The encoder never emits the path separator. */
  lemma EncodedHasNoSlash(s: string)
    ensures '/' !in EncodeURIComponent(s)
  {
  }

  // ---------------------------------------------------------------------
  // getPath

  /** The endpoint path with exactly one trailing separator added when it
      lacks one. */
  function Base(path: string): string
  {
    if |path| > 0 && path[|path| - 1] == '/' then path else path + "/"
  }

  /** The segments getPath puts after the base, in order: two, or three
      with a truthy label. */
  function Segments(name: string, profiles: Profiles, lbl: Option<string>): (segments: seq<string>)
    ensures |segments| == if LabelTruthy(lbl) then 3 else 2
    ensures forall i :: 0 <= i < |segments| ==> '/' !in segments[i]
  {
    [EncodeURIComponent(name), EncodeURIComponent(BuildProfilesString(profiles))]
      + (if LabelTruthy(lbl) then [EncodeURIComponent(lbl.value)] else [])
  }

  /** The base ends in one separator and is the path itself exactly when the
      path already ended in one. */
  lemma BaseEndsInSeparator(path: string)
    ensures var b := Base(path); |b| > 0 && b[|b| - 1] == '/'
    ensures Base(path) == path <==> (|path| > 0 && path[|path| - 1] == '/')
    ensures Base(path) != path ==> Base(path) == path + "/"
  {
  }

  /** The concatenation getPath writes, on already encoded parts, is the
      base followed by the parts joined by '/'. */
  lemma {:induction false} ConcatenationIsJoin(b: string, n: string, ps: string, l: Option<string>)
    ensures b + n + "/" + ps + (if l.Some? then "/" + l.value else "") ==
      b + Join([n, ps] + (if l.Some? then [l.value] else []), '/')
  {
    if l.Some? {
      var last := l.value;
      assert [n, ps] + [last] == [n, ps, last];
      assert [ps, last][1..] == [last];
      assert Join([ps, last], '/') == ps + ['/'] + last;
      assert [n, ps, last][1..] == [ps, last];
      assert Join([n, ps, last], '/') == n + ['/'] + (ps + ['/'] + last);
    } else {
      assert [n, ps] + [] == [n, ps];
      assert [n, ps][1..] == [ps];
      assert Join([n, ps], '/') == n + ['/'] + ps;
    }
  }

  /** getPath: the base, then the encoded name, profiles and truthy label
      joined by '/'; what follows the base splits back into those segments. */
  function GetPath(path: string, name: string, profiles: Profiles, lbl: Option<string>): (p: string)
    ensures p == Base(path) + Join(Segments(name, profiles, lbl), '/')
    ensures var b := Base(path);
      |b| <= |p| && p[..|b|] == b && Split(p[|b|..], '/') == Segments(name, profiles, lbl)
  {
    var b := Base(path);
    var segments := Segments(name, profiles, lbl);
    var encodedLabel := if LabelTruthy(lbl) then Some(EncodeURIComponent(lbl.value)) else None;
    ConcatenationIsJoin(b, EncodeURIComponent(name), EncodeURIComponent(BuildProfilesString(profiles)),
                        encodedLabel);
    SplitJoin(segments, '/');
    var suffix := Join(segments, '/');
    assert (b + suffix)[..|b|] == b && (b + suffix)[|b|..] == suffix;
    b + EncodeURIComponent(name) + "/" + EncodeURIComponent(BuildProfilesString(profiles))
      + (if LabelTruthy(lbl) then "/" + EncodeURIComponent(lbl.value) else "")
  }

  /** Falsy profiles select the `default` profile; a profile string is used as it is. */
  lemma ProfilesDefault(p: Profiles)
    ensures ProfilesFalsy(p) ==> BuildProfilesString(p) == "default"
    ensures p.Profile? && p.name != "" ==> BuildProfilesString(p) == p.name
  {
  }
}
