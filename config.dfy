/** The configuration store: one XML file per tunnel in the configuration
    directory. The XML is an abstract element tree; the directory is a map
    from file name to the document the file holds (`None` for a file whose
    text is not well-formed XML). */
module Config {
  import opened Wrappers
  import opened Text
  import opened Models

  // ----- An abstract XML tree -----

  datatype XNode = XText(text: string) | XElement(name: string, nodes: seq<XNode>)

  datatype XDocument = XDocument(root: XNode)

  function Concat(ss: seq<string>): string {
    if ss == [] then "" else ss[0] + Concat(ss[1..])
  }

  /** `XElement.Value`: the concatenated text of all descendant text nodes. */
  function Value(x: XNode): string {
    match x
    case XText(t) => t
    case XElement(_, nodes) => Concat(seq(|nodes|, i requires 0 <= i < |nodes| => Value(nodes[i])))
  }

  function Children(x: XNode): seq<XNode> {
    if x.XElement? then x.nodes else []
  }

  predicate Named(x: XNode, tag: string) {
    x.XElement? && x.name == tag
  }

  /** `Element(tag)`: the first child element with that name. */
  function FirstNamed(ns: seq<XNode>, tag: string): (r: Option<XNode>)
    ensures r.Some? ==> Named(r.value, tag)
  {
    if ns == [] then None
    else if Named(ns[0], tag) then Some(ns[0])
    else FirstNamed(ns[1..], tag)
  }

  /** `Elements(tag)`: every child element with that name, in order. */
  function AllNamed(ns: seq<XNode>, tag: string): (r: seq<XNode>)
    ensures |r| <= |ns|
    ensures forall i :: 0 <= i < |r| ==> Named(r[i], tag)
  {
    if ns == [] then []
    else (if Named(ns[0], tag) then [ns[0]] else []) + AllNamed(ns[1..], tag)
  }

  /** `x.Element(tag)?.Value`. */
  function ChildValue(x: XNode, tag: string): Option<string> {
    match FirstNamed(Children(x), tag)
    case None => None
    case Some(c) => Some(Value(c))
  }

  /** An element holding one text value, as `new XElement(tag, value)`. */
  function Leaf(tag: string, value: string): XNode {
    XElement(tag, [XText(value)])
  }

  lemma LeafValue(tag: string, value: string)
    ensures Value(Leaf(tag, value)) == value
  {
    var s := seq(1, i requires 0 <= i < 1 => Value([XText(value)][i]));
    assert s == [value];
    assert Concat([value]) == value + Concat([]);
  }

  /** The first element with a name is found behind any prefix of nodes
      that carry other names. */
  lemma {:induction false} FirstNamedAfter(pre: seq<XNode>, x: XNode, post: seq<XNode>, tag: string)
    requires Named(x, tag)
    requires forall i :: 0 <= i < |pre| ==> !Named(pre[i], tag)
    ensures FirstNamed(pre + [x] + post, tag) == Some(x)
  {
    if pre != [] {
      assert (pre + [x] + post)[1..] == pre[1..] + [x] + post;
      FirstNamedAfter(pre[1..], x, post, tag);
    }
  }

  lemma {:induction false} AllNamedAppend(a: seq<XNode>, b: seq<XNode>, tag: string)
    ensures AllNamed(a + b, tag) == AllNamed(a, tag) + AllNamed(b, tag)
  {
    if a != [] {
      var head := if Named(a[0], tag) then [a[0]] else [];
      assert (a + b)[0] == a[0];
      assert (a + b)[1..] == a[1..] + b;
      assert AllNamed(a + b, tag) == head + AllNamed(a[1..] + b, tag);
      AllNamedAppend(a[1..], b, tag);
      assert AllNamed(a, tag) == head + AllNamed(a[1..], tag);
    } else {
      assert a + b == b;
    }
  }

  // ----- Booleans -----

  /** `ParseBool`: no value or "" is false, "1" true, "0" false, and any
      other text is true exactly when it is "true" ignoring case. */
  function ParseBool(value: Option<string>): (b: bool)
    ensures value.None? || value.value == "" ==> !b
    ensures value == Some("1") ==> b
    ensures value == Some("0") ==> !b
    ensures value.Some? && value.value !in {"", "1", "0"} ==> (b <==> EqualsIgnoreCase(value.value, "true"))
  {
    if value.None? || value.value == "" then false
    else if value.value == "1" then true
    else if value.value == "0" then false
    else EqualsIgnoreCase(value.value, "true")
  }

  /** The "1"/"0" encoding written to a file. */
  function EncodeBool(b: bool): string {
    if b then "1" else "0"
  }

  /** Reading back a written flag gives the flag. */
  lemma ParseEncodedBool(b: bool)
    ensures ParseBool(Some(EncodeBool(b))) == b
  {
  }

  /** "TRUE", "True" and "true" all read as true; "yes" reads as false. */
  lemma ParseBoolSpellings()
    ensures ParseBool(Some("TRUE")) && ParseBool(Some("True")) && !ParseBool(Some("yes"))
  {
    assert ToLower("TRUE") == "true";
    assert ToLower("True") == "true";
    assert ToLower("yes") == "yes";
  }

  // ----- Loading -----

  /** One `<tunnel>` element as a redirection; a missing type is "local",
      other missing fields are "". */
  function LoadRedirection(x: XNode): (r: PortRedirection)
    ensures ChildValue(x, "type").None? ==> r.kind == LocalType
    ensures ChildValue(x, "port1").None? ==> r.port1 == ""
    ensures ChildValue(x, "host").None? ==> r.host == ""
    ensures ChildValue(x, "port2").None? ==> r.port2 == ""
  {
    PortRedirection(
      ChildValue(x, "type").GetOr("local"),
      ChildValue(x, "port1").GetOr(""),
      ChildValue(x, "host").GetOr(""),
      ChildValue(x, "port2").GetOr(""))
  }

  function LoadRedirections(xs: seq<XNode>): (rs: seq<PortRedirection>)
    ensures |rs| == |xs| && forall i :: 0 <= i < |xs| ==> rs[i] == LoadRedirection(xs[i])
  {
    seq(|xs|, i requires 0 <= i < |xs| => LoadRedirection(xs[i]))
  }

  /** The scalar fields of a `<sshtunnel>` root; a missing port is "22",
      a missing restart limit "9", other strings "", every flag false.
      The restart limit is taken as it is, numeric or not. */
  function LoadFields(root: XNode): SshTunnel {
    SshTunnel(
      ChildValue(root, "name").GetOr(""),
      ChildValue(root, "host").GetOr(""),
      ChildValue(root, "port").GetOr("22"),
      ChildValue(root, "login").GetOr(""),
      ChildValue(root, "privkey").GetOr(""),
      ParseBool(ChildValue(root, "autostart")),
      ParseBool(ChildValue(root, "restart")),
      ParseBool(ChildValue(root, "notify")),
      ChildValue(root, "maxrestarts").GetOr("9"),
      ParseBool(ChildValue(root, "preset")),
      [], false, 0, None)
  }

  /** `LoadTunnelFromFileAsync` on a parsed document: nothing unless the
      root is `<sshtunnel>`. */
  function LoadTunnel(doc: XDocument): Option<SshTunnel> {
    if Named(doc.root, "sshtunnel")
    then Some(LoadFields(doc.root).(portRedirections := LoadRedirections(AllNamed(Children(doc.root), "tunnel"))))
    else None
  }

  /** A document whose root is not `<sshtunnel>` loads as nothing. */
  lemma WrongRootIgnored(doc: XDocument)
    requires !Named(doc.root, "sshtunnel")
    ensures LoadTunnel(doc).None?
  {
  }

  /** An empty `<sshtunnel/>` loads with the defaults of a load: port "22",
      restart limit "9", empty strings, and every flag false (so `Notify`
      is off, unlike a new tunnel). */
  lemma EmptyDocumentDefaults()
    ensures var t := LoadTunnel(XDocument(XElement("sshtunnel", [])));
      t.Some? && t.value.port == "22" && t.value.maxRestarts == "9"
      && t.value.name == "" && t.value.host == "" && t.value.login == "" && t.value.privateKeyPath == ""
      && !t.value.autoStart && !t.value.restart && !t.value.notify && !t.value.preset
      && t.value.portRedirections == [] && !t.value.active && t.value.sshPid == 0
      && t.value.notify != NewSshTunnel().notify
  {
  }

  /** An empty `<tunnel/>` loads as a local redirection with empty fields. */
  lemma EmptyRedirectionDefaults()
    ensures LoadRedirection(XElement("tunnel", [])) == PortRedirection("local", "", "", "")
  {
  }

  // ----- Saving -----

  function RedirectionElement(r: PortRedirection): XNode {
    XElement("tunnel", [Leaf("type", r.kind), Leaf("port1", r.port1), Leaf("host", r.host), Leaf("port2", r.port2)])
  }

  function RedirectionElements(rs: seq<PortRedirection>): (xs: seq<XNode>)
    ensures |xs| == |rs| && forall i :: 0 <= i < |rs| ==> xs[i] == RedirectionElement(rs[i])
  {
    seq(|rs|, i requires 0 <= i < |rs| => RedirectionElement(rs[i]))
  }

  /** The tags of the ten scalar elements `SaveTunnelAsync` writes, in order. */
  const FieldTags: seq<string> :=
    ["name", "host", "port", "login", "privkey", "autostart", "restart", "notify", "maxrestarts", "preset"]

  /** The text written under each tag; flags as "1"/"0". */
  function FieldValues(t: SshTunnel): (vs: seq<string>)
    ensures |vs| == |FieldTags|
  {
    [t.name, t.host, t.port, t.login, t.privateKeyPath, EncodeBool(t.autoStart),
     EncodeBool(t.restart), EncodeBool(t.notify), t.maxRestarts, EncodeBool(t.preset)]
  }

  function FieldElements(t: SshTunnel): (xs: seq<XNode>)
    ensures |xs| == |FieldTags|
    ensures forall k :: 0 <= k < |xs| ==> xs[k] == Leaf(FieldTags[k], FieldValues(t)[k])
  {
    seq(|FieldTags|, k requires 0 <= k < |FieldTags| => Leaf(FieldTags[k], FieldValues(t)[k]))
  }

  /** No tag is written twice. */
  lemma FieldTagsDistinct()
    ensures forall i, j :: 0 <= i < j < |FieldTags| ==> FieldTags[i] != FieldTags[j]
  {
  }

  /** The document `SaveTunnelAsync` writes for a tunnel. */
  function TunnelDocument(t: SshTunnel): XDocument {
    XDocument(XElement("sshtunnel", FieldElements(t) + RedirectionElements(t.portRedirections)))
  }

  /** Saving and loading a redirection gives it back. */
  lemma RedirectionRoundTrip(r: PortRedirection)
    ensures LoadRedirection(RedirectionElement(r)) == r
  {
    var ns := Children(RedirectionElement(r));
    LeafValue("type", r.kind);
    LeafValue("port1", r.port1);
    LeafValue("host", r.host);
    LeafValue("port2", r.port2);
    FirstNamedAfter([], ns[0], ns[1..], "type");
    assert ns == [ns[0]] + [ns[1]] + ns[2..];
    FirstNamedAfter([ns[0]], ns[1], ns[2..], "port1");
    assert ns == ns[..2] + [ns[2]] + ns[3..];
    FirstNamedAfter(ns[..2], ns[2], ns[3..], "host");
    assert ns == ns[..3] + [ns[3]] + [];
    FirstNamedAfter(ns[..3], ns[3], [], "port2");
  }

  /** The saved redirection list loads back in order. */
  lemma RedirectionsRoundTrip(rs: seq<PortRedirection>)
    ensures LoadRedirections(RedirectionElements(rs)) == rs
  {
    forall i | 0 <= i < |rs| ensures LoadRedirections(RedirectionElements(rs))[i] == rs[i] {
      RedirectionRoundTrip(rs[i]);
    }
  }

  /** Only the redirection elements of a saved root are named `tunnel`. */
  lemma SavedTunnelElements(t: SshTunnel)
    ensures AllNamed(Children(TunnelDocument(t).root), "tunnel") == RedirectionElements(t.portRedirections)
  {
    var fs := FieldElements(t);
    var xs := RedirectionElements(t.portRedirections);
    AllNamedAppend(fs, xs, "tunnel");
    AllNamedNone(fs, "tunnel");
    AllNamedIdentity(xs, "tunnel");
  }

  lemma {:induction false} AllNamedNone(xs: seq<XNode>, tag: string)
    requires forall i :: 0 <= i < |xs| ==> !Named(xs[i], tag)
    ensures AllNamed(xs, tag) == []
  {
    if xs != [] {
      AllNamedNone(xs[1..], tag);
    }
  }

  lemma {:induction false} AllNamedIdentity(xs: seq<XNode>, tag: string)
    requires forall i :: 0 <= i < |xs| ==> Named(xs[i], tag)
    ensures AllNamed(xs, tag) == xs
  {
    if xs != [] {
      AllNamedIdentity(xs[1..], tag);
    }
  }

  /** The value of the scalar field at position `k` of a saved root. */
  lemma SavedField(t: SshTunnel, k: nat)
    requires k < |FieldTags|
    ensures ChildValue(TunnelDocument(t).root, FieldTags[k]) == Some(FieldValues(t)[k])
  {
    var ns := Children(TunnelDocument(t).root);
    var fs := FieldElements(t);
    var rest := fs[k + 1..] + RedirectionElements(t.portRedirections);
    assert ns == fs[..k] + [fs[k]] + rest;
    FieldTagsDistinct();
    forall i | 0 <= i < k ensures !Named(fs[..k][i], FieldTags[k]) {
      assert fs[..k][i] == Leaf(FieldTags[i], FieldValues(t)[i]);
    }
    FirstNamedAfter(fs[..k], fs[k], rest, FieldTags[k]);
    LeafValue(FieldTags[k], FieldValues(t)[k]);
  }

  /** The scalar fields of a saved tunnel load back unchanged; the flags
      go through the "1"/"0" encoding. */
  lemma FieldsRoundTrip(t: SshTunnel)
    ensures LoadFields(TunnelDocument(t).root) == Persistent(t).(portRedirections := [])
  {
    SavedField(t, 0);
    SavedField(t, 1);
    SavedField(t, 2);
    SavedField(t, 3);
    SavedField(t, 4);
    SavedField(t, 5);
    SavedField(t, 6);
    SavedField(t, 7);
    SavedField(t, 8);
    SavedField(t, 9);
    ParseEncodedBool(t.autoStart);
    ParseEncodedBool(t.restart);
    ParseEncodedBool(t.notify);
    ParseEncodedBool(t.preset);
  }

  /** Save then load gives back every configuration field and the ordered
      redirection list; only the runtime state and the file name are not
      part of the document. */
  lemma SaveLoadRoundTrip(t: SshTunnel)
    ensures LoadTunnel(TunnelDocument(t)) == Some(Persistent(t))
  {
    FieldsRoundTrip(t);
    SavedTunnelElements(t);
    RedirectionsRoundTrip(t.portRedirections);
  }

  // ----- File names -----

  /** The separators `string.Split(char[])` uses: the given characters, or
      whitespace when none are given. */
  predicate IsSeparator(c: char, invalid: set<char>) {
    if invalid == {} then IsWhiteSpace(c) else c in invalid
  }

  predicate Avoids(s: string, invalid: set<char>) {
    forall i :: 0 <= i < |s| ==> !IsSeparator(s[i], invalid)
  }

  /** `string.Split`: the pieces between separators, empty ones included. */
  function SplitPieces(s: string, invalid: set<char>): (ps: seq<string>)
    ensures |ps| >= 1 && forall j :: 0 <= j < |ps| ==> Avoids(ps[j], invalid)
  {
    if s == [] then [""]
    else
      var rest := SplitPieces(s[1..], invalid);
      if IsSeparator(s[0], invalid) then [""] + rest
      else [[s[0]] + rest[0]] + rest[1..]
  }

  /** `StringSplitOptions.RemoveEmptyEntries`. */
  function NonEmpty(ps: seq<string>): (qs: seq<string>)
    ensures forall j :: 0 <= j < |qs| ==> qs[j] != "" && qs[j] in ps
  {
    if ps == [] then []
    else (if ps[0] == "" then [] else [ps[0]]) + NonEmpty(ps[1..])
  }

  /** `SanitizeFileName`: the pieces between invalid characters joined by
      "_", or "tunnel" when that leaves nothing but whitespace. */
  function SanitizeFileName(name: string, invalid: set<char>): (r: string)
    ensures r != "" && !IsBlank(r)
  {
    var joined := Join("_", NonEmpty(SplitPieces(name, invalid)));
    if IsBlank(joined) then
      assert !IsWhiteSpace("tunnel"[0]);
      "tunnel"
    else joined
  }

  lemma {:induction false} JoinAvoids(parts: seq<string>, invalid: set<char>)
    requires Avoids("_", invalid)
    requires forall j :: 0 <= j < |parts| ==> Avoids(parts[j], invalid)
    ensures Avoids(Join("_", parts), invalid)
    decreases |parts|
  {
    if |parts| > 1 {
      JoinAvoids(parts[..|parts| - 1], invalid);
      var a := Join("_", parts[..|parts| - 1]);
      var b := parts[|parts| - 1];
      forall i | 0 <= i < |a + "_" + b| ensures !IsSeparator((a + "_" + b)[i], invalid) {
        if i < |a| {
          assert (a + "_" + b)[i] == a[i];
        } else if i == |a| {
          assert (a + "_" + b)[i] == "_"[0];
        } else {
          assert (a + "_" + b)[i] == b[i - |a| - 1];
        }
      }
    }
  }

  /** When neither "_" nor the letters of "tunnel" are invalid, the
      sanitized name holds no invalid character. */
  lemma SanitizedAvoidsInvalid(name: string, invalid: set<char>)
    requires invalid != {} && '_' !in invalid
    requires forall c :: c in "tunnel" ==> c !in invalid
    ensures Avoids(SanitizeFileName(name, invalid), invalid)
  {
    var ps := NonEmpty(SplitPieces(name, invalid));
    forall j | 0 <= j < |ps| ensures Avoids(ps[j], invalid) {
      assert ps[j] in SplitPieces(name, invalid);
    }
    JoinAvoids(ps, invalid);
    assert forall i :: 0 <= i < |"tunnel"| ==> "tunnel"[i] in "tunnel";
  }

  lemma {:induction false} SplitWithoutSeparators(s: string, invalid: set<char>)
    requires Avoids(s, invalid)
    ensures SplitPieces(s, invalid) == [s]
  {
    if s != [] {
      SplitWithoutSeparators(s[1..], invalid);
      assert [s[0]] + s[1..] == s;
    }
  }

  /** A name that is not blank and holds no invalid character is kept. */
  lemma CleanNameKept(name: string, invalid: set<char>)
    requires !IsBlank(name) && Avoids(name, invalid)
    ensures SanitizeFileName(name, invalid) == name
  {
    SplitWithoutSeparators(name, invalid);
    assert NonEmpty([name]) == [name] + NonEmpty([]);
  }

  lemma {:induction false} SplitOnlySeparators(s: string, invalid: set<char>)
    requires forall i :: 0 <= i < |s| ==> IsSeparator(s[i], invalid)
    ensures forall j :: 0 <= j < |SplitPieces(s, invalid)| ==> SplitPieces(s, invalid)[j] == ""
  {
    if s != [] {
      SplitOnlySeparators(s[1..], invalid);
    }
  }

  lemma {:induction false} NonEmptyOfEmpties(ps: seq<string>)
    requires forall j :: 0 <= j < |ps| ==> ps[j] == ""
    ensures NonEmpty(ps) == []
  {
    if ps != [] {
      NonEmptyOfEmpties(ps[1..]);
    }
  }

  /** A name made only of invalid characters (or, with no invalid
      characters given, only of whitespace) is saved as "tunnel". */
  lemma OnlyInvalidGivesDefault(name: string, invalid: set<char>)
    requires forall i :: 0 <= i < |name| ==> IsSeparator(name[i], invalid)
    ensures SanitizeFileName(name, invalid) == "tunnel"
  {
    SplitOnlySeparators(name, invalid);
    NonEmptyOfEmpties(SplitPieces(name, invalid));
  }

  /** `Replace(".", "")`. */
  function RemoveDots(s: string): (r: string)
    ensures |r| <= |s| && forall i :: 0 <= i < |r| ==> r[i] != '.'
  {
    if s == [] then [] else (if s[0] == '.' then [] else [s[0]]) + RemoveDots(s[1..])
  }

  /** The file name `SaveTunnelAsync` writes to: the tunnel's own when it
      has a non-empty one, otherwise `{sanitized name}.{6-character id}.gstm`
      built from the random name; `Substring(0, 6)` throws when the random
      name has fewer than six characters other than dots. */
  function ChooseFileName(t: SshTunnel, randomName: string, invalid: set<char>): (r: Option<string>)
    ensures t.fileName.Some? && t.fileName.value != "" ==> r == t.fileName
    ensures (t.fileName.None? || t.fileName.value == "") ==>
              (r.Some? <==> |RemoveDots(randomName)| >= 6)
    ensures (t.fileName.None? || t.fileName.value == "") && r.Some? ==>
              exists id :: |id| == 6 && '.' !in id
                && r.value == SanitizeFileName(t.name, invalid) + "." + id + ".gstm"
  {
    if t.fileName.Some? && t.fileName.value != "" then t.fileName
    else
      var id := RemoveDots(randomName);
      if |id| < 6 then None
      else
        assert '.' !in id[..6] by {
          forall i | 0 <= i < 6 ensures id[..6][i] != '.' { assert id[..6][i] == id[i]; }
        }
        Some(SanitizeFileName(t.name, invalid) + "." + id[..6] + ".gstm")
  }

  // ----- Name checks -----

  /** Whether `TunnelNameExistsAsync` finds the name: some tunnel not
      stored in the excluded file carries it, ignoring case. */
  predicate NameTaken(ts: seq<SshTunnel>, name: string, exclude: Option<string>) {
    exists i :: 0 <= i < |ts| && !(exclude.Some? && ts[i].fileName == exclude)
                && EqualsIgnoreCase(ts[i].name, name)
  }

  /** The check cannot tell names apart that differ only in case. */
  lemma NameTakenIgnoresCase(ts: seq<SshTunnel>, a: string, b: string, exclude: Option<string>)
    requires EqualsIgnoreCase(a, b)
    ensures NameTaken(ts, a, exclude) <==> NameTaken(ts, b, exclude)
  {
  }

  /** A tunnel stored in the excluded file never counts. */
  lemma ExcludedFileIgnored(t: SshTunnel, f: string)
    requires t.fileName == Some(f)
    ensures !NameTaken([t], t.name, Some(f))
  {
  }

  /** "DB" is reported as taken when "db" exists. */
  lemma CaseVariantTaken(t: SshTunnel)
    requires t.name == "db" && t.fileName.None?
    ensures NameTaken([t], "DB", None)
  {
    assert ToLower("DB") == "db";
    assert ToLower("db") == "db";
    assert EqualsIgnoreCase([t][0].name, "DB");
  }

  // ----- The directory -----

  /** The tunnels `LoadTunnelsAsync` returns for the files listed in
      `order` (the directory enumeration of `*.gstm`): a file that is gone,
      not well-formed or not a tunnel is skipped, and each loaded tunnel
      records the file it came from. */
  function LoadedFrom(files: map<string, Option<XDocument>>, order: seq<string>): seq<SshTunnel> {
    if order == [] then []
    else LoadedFrom(files, order[..|order| - 1]) + LoadedOne(files, order[|order| - 1])
  }

  function LoadedOne(files: map<string, Option<XDocument>>, f: string): seq<SshTunnel> {
    if f in files && files[f].Some? && LoadTunnel(files[f].value).Some?
    then [LoadTunnel(files[f].value).value.(fileName := Some(f))]
    else []
  }

  /** Every loaded tunnel comes from a listed file holding a tunnel
      document, records that file's name, and is that document's tunnel. */
  lemma {:induction false} LoadedFromFiles(files: map<string, Option<XDocument>>, order: seq<string>)
    ensures |LoadedFrom(files, order)| <= |order|
    ensures forall j :: 0 <= j < |LoadedFrom(files, order)| ==>
              var t := LoadedFrom(files, order)[j];
              t.fileName.Some? && t.fileName.value in order && t.fileName.value in files
              && files[t.fileName.value].Some?
              && LoadTunnel(files[t.fileName.value].value) == Some(t.(fileName := None))
  {
    if order != [] {
      var init := order[..|order| - 1];
      LoadedFromFiles(files, init);
      var f := order[|order| - 1];
      if f in files && files[f].Some? && LoadTunnel(files[f].value).Some? {
        var u := LoadTunnel(files[f].value).value;
        assert u.fileName.None?;
        assert u.(fileName := Some(f)).(fileName := None) == u;
      }
      forall j | 0 <= j < |LoadedFrom(files, init)| ensures LoadedFrom(files, init)[j].fileName.value in order {
        assert LoadedFrom(files, init)[j].fileName.value in init;
      }
    }
  }

  /** What `SaveTunnelAsync` leaves in the tunnel object it was given. */
  function SavedTunnel(t: SshTunnel, randomName: string, invalid: set<char>): SshTunnel {
    match ChooseFileName(t, randomName, invalid)
    case Some(f) => t.(fileName := Some(f))
    case None => t
  }

  /** Whether `SaveTunnelAsync` returns true. */
  predicate SaveSucceeds(t: SshTunnel, randomName: string, invalid: set<char>, writeFails: bool) {
    ChooseFileName(t, randomName, invalid).Some? && !writeFails
  }

  /** The configuration files after `SaveTunnelAsync`. */
  function SavedFiles(files: map<string, Option<XDocument>>, t: SshTunnel, randomName: string,
                      invalid: set<char>, writeFails: bool): map<string, Option<XDocument>>
  {
    if SaveSucceeds(t, randomName, invalid, writeFails)
    then files[ChooseFileName(t, randomName, invalid).value := Some(TunnelDocument(t))]
    else files
  }

  /** A successful save leaves a file the tunnel loads back from, under the
      name recorded on the saved tunnel. */
  lemma SavedTunnelReloads(files: map<string, Option<XDocument>>, t: SshTunnel, randomName: string,
                           invalid: set<char>)
    requires SaveSucceeds(t, randomName, invalid, false)
    ensures var s := SavedTunnel(t, randomName, invalid);
      s.fileName.Some?
      && LoadedOne(SavedFiles(files, t, randomName, invalid, false), s.fileName.value) == [Persistent(t).(fileName := s.fileName)]
  {
    var f := ChooseFileName(t, randomName, invalid).value;
    SavedFileLoads(files, f, t);
  }

  class ConfigService {
    /** The configuration directory: file name to content. */
    var files: map<string, Option<XDocument>>

    constructor(files: map<string, Option<XDocument>>)
      ensures this.files == files
    {
      this.files := files;
    }

    /** `LoadTunnelsAsync`. */
    method LoadTunnels(order: seq<string>) returns (tunnels: seq<SshTunnel>)
      ensures tunnels == LoadedFrom(files, order)
    {
      tunnels := [];
      var i := 0;
      while i < |order|
        invariant 0 <= i <= |order|
        invariant tunnels == LoadedFrom(files, order[..i])
      {
        var f := order[i];
        assert order[..i + 1][..i] == order[..i];
        if f in files && files[f].Some? {
          var tunnel := LoadTunnelFromDocument(files[f].value);
          if tunnel.Some? {
            tunnels := tunnels + [tunnel.value.(fileName := Some(f))];
          }
        }
        i := i + 1;
      }
      assert order[..|order|] == order;
    }

    /** `TunnelNameExistsAsync`: loads the directory and stops at the first
        tunnel outside the excluded file whose name matches ignoring case. */
    method TunnelNameExists(order: seq<string>, name: string, exclude: Option<string>) returns (found: bool)
      ensures found == NameTaken(LoadedFrom(files, order), name, exclude)
    {
      var tunnels := LoadTunnels(order);
      var i := 0;
      while i < |tunnels|
        invariant 0 <= i <= |tunnels|
        invariant forall j :: 0 <= j < i ==> (exclude.Some? && tunnels[j].fileName == exclude)
                                             || !EqualsIgnoreCase(tunnels[j].name, name)
      {
        if exclude.Some? && tunnels[i].fileName == exclude {
          i := i + 1;
          continue;
        }
        if ToLower(tunnels[i].name) == ToLower(name) {
          return true;
        }
        i := i + 1;
      }
      return false;
    }

    /** `SaveTunnelAsync`: picks the file name, records it on the tunnel,
        then writes the document. It fails without any change when no file
        name can be built, and fails after recording the name when the
        write fails. */
    method SaveTunnel(t: SshTunnel, randomName: string, invalid: set<char>, writeFails: bool)
      returns (ok: bool, saved: SshTunnel)
      modifies this
      ensures ok == SaveSucceeds(t, randomName, invalid, writeFails)
      ensures saved == SavedTunnel(t, randomName, invalid)
      ensures files == SavedFiles(old(files), t, randomName, invalid, writeFails)
    {
      var fileName := ChooseFileName(t, randomName, invalid);
      if fileName.None? {
        // `Substring(0, 6)` threw
        return false, t;
      }
      saved := t.(fileName := fileName);
      var doc := BuildDocument(saved);
      DocumentIgnoresFileName(t, saved.fileName);
      if writeFails {
        return false, saved;
      }
      files := files[fileName.value := Some(doc)];
      ok := true;
    }

    /** `DeleteTunnelAsync`: false when the file does not exist; false, with
        the file kept, when the deletion throws (`deleteFails`: a locked
        file, a missing permission); otherwise the file is removed. */
    method DeleteTunnel(fileName: string, deleteFails: bool) returns (ok: bool)
      modifies this
      ensures ok <==> fileName in old(files) && !deleteFails
      ensures ok ==> files == old(files) - {fileName}
      ensures !ok ==> files == old(files)
    {
      if fileName !in files {
        return false;
      }
      if deleteFails {
        // `File.Delete` threw; the exception is caught
        return false;
      }
      files := files - {fileName};
      ok := true;
    }
  }

  /** The file name is not part of the document. */
  lemma DocumentIgnoresFileName(t: SshTunnel, f: Option<string>)
    ensures TunnelDocument(t.(fileName := f)) == TunnelDocument(t)
  {
    assert FieldValues(t.(fileName := f)) == FieldValues(t);
  }

  /** After a successful save the file holds the tunnel's configuration. */
  lemma SavedFileLoads(files: map<string, Option<XDocument>>, f: string, t: SshTunnel)
    ensures LoadedOne(files[f := Some(TunnelDocument(t))], f) == [Persistent(t).(fileName := Some(f))]
  {
    SaveLoadRoundTrip(t);
  }

  /** The parsing half of `LoadTunnelFromFileAsync`, with its loop over the
      `<tunnel>` elements. */
  method LoadTunnelFromDocument(doc: XDocument) returns (tunnel: Option<SshTunnel>)
    ensures tunnel == LoadTunnel(doc)
  {
    if !Named(doc.root, "sshtunnel") {
      return None;
    }
    var elements := AllNamed(Children(doc.root), "tunnel");
    var redirections := [];
    var i := 0;
    while i < |elements|
      invariant 0 <= i <= |elements|
      invariant redirections == LoadRedirections(elements[..i])
    {
      LoadRedirectionsSnoc(elements, i);
      redirections := redirections + [LoadRedirection(elements[i])];
      i := i + 1;
    }
    assert elements[..|elements|] == elements;
    tunnel := Some(LoadFields(doc.root).(portRedirections := redirections));
  }

  lemma LoadRedirectionsSnoc(xs: seq<XNode>, i: nat)
    requires i < |xs|
    ensures LoadRedirections(xs[..i + 1]) == LoadRedirections(xs[..i]) + [LoadRedirection(xs[i])]
  {
    var a := LoadRedirections(xs[..i + 1]);
    var b := LoadRedirections(xs[..i]) + [LoadRedirection(xs[i])];
    assert |a| == |b|;
    forall j | 0 <= j < |a| ensures a[j] == b[j] {
      assert xs[..i + 1][j] == xs[j];
    }
  }

  /** The document building of `SaveTunnelAsync`, with its loop adding one
      `<tunnel>` element per redirection. */
  method BuildDocument(t: SshTunnel) returns (doc: XDocument)
    ensures doc == TunnelDocument(t)
  {
    var nodes := FieldElements(t);
    var i := 0;
    while i < |t.portRedirections|
      invariant 0 <= i <= |t.portRedirections|
      invariant nodes == FieldElements(t) + RedirectionElements(t.portRedirections[..i])
    {
      nodes := nodes + [RedirectionElement(t.portRedirections[i])];
      i := i + 1;
    }
    assert t.portRedirections[..|t.portRedirections|] == t.portRedirections;
    doc := XDocument(XElement("sshtunnel", nodes));
  }
}
