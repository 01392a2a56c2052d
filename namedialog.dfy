/** The dialog that asks for the name of a new or copied tunnel. */
module Names {
  import opened Wrappers
  import opened Text

  datatype NameRejection = EmptyName | DuplicateName

  /** The candidate: the trimmed text-box content, "" when there is none. */
  function Candidate(text: Option<string>): (name: string)
    ensures text.None? ==> name == ""
    ensures text.Some? ==> name == Trim(text.value)
  {
    if text.None? then "" else Trim(text.value)
  }

  /** The acceptance rule of `BtnOK_Click`: a blank candidate is refused
      first, then one already in the set of existing names (compared
      exactly, case included); any other candidate is the new name. */
  function Accept(existing: set<string>, text: Option<string>): (r: Result<string, NameRejection>)
    ensures r == Err(EmptyName) <==> IsBlank(Candidate(text))
    ensures r == Err(DuplicateName) <==> !IsBlank(Candidate(text)) && Candidate(text) in existing
    ensures r.Ok? <==> !IsBlank(Candidate(text)) && Candidate(text) !in existing
    ensures r.Ok? ==> r.value == Candidate(text)
  {
    var name := Candidate(text);
    if IsBlank(name) then Err(EmptyName)
    else if name in existing then Err(DuplicateName)
    else Ok(name)
  }

  /** An accepted name is not empty, has no surrounding whitespace and is
      new; empty input, none at all and whitespace only are all refused. */
  lemma AcceptedNameIsTrimmed(existing: set<string>, text: Option<string>)
    ensures Accept(existing, text).Ok? ==>
      var n := Accept(existing, text).value;
      n != "" && Trim(n) == n && n !in existing
    ensures text.None? || IsBlank(text.value) ==> Accept(existing, text) == Err(EmptyName)
  {
    if text.Some? {
      TrimIdempotent(text.value);
      TrimEmptyIffBlank(text.value);
      TrimIsSlice(text.value);
    }
  }

  /** Surrounding whitespace does not get a duplicate past the check. */
  lemma PaddedDuplicateRefused(existing: set<string>, s: string, pad: string)
    requires s in existing && !IsBlank(s) && Trim(s) == s
    requires IsBlank(pad)
    ensures Accept(existing, Some(pad + s + pad)) == Err(DuplicateName)
  {
    PaddedTrim(s, pad);
  }

  lemma PaddedTrim(s: string, pad: string)
    requires !IsBlank(s) && Trim(s) == s && IsBlank(pad)
    ensures Trim(pad + s + pad) == s
  {
    TrimEmptyIffBlank(s);
    TrimIsSlice(s);
    assert s != [] && !IsWhiteSpace(s[0]) && !IsWhiteSpace(s[|s| - 1]);
    var u := pad + s + pad;
    assert u == pad + (s + pad);
    assert (s + pad)[0] == s[0];
    TrimStartPadded(pad, s + pad);
    assert TrimStart(u) == s + pad;
    TrimEndPadded(s, pad);
  }

  lemma {:induction false} TrimStartPadded(pad: string, rest: string)
    requires IsBlank(pad) && rest != [] && !IsWhiteSpace(rest[0])
    ensures TrimStart(pad + rest) == rest
  {
    if pad != [] {
      assert (pad + rest)[1..] == pad[1..] + rest;
      TrimStartPadded(pad[1..], rest);
    }
  }

  lemma {:induction false} TrimEndPadded(s: string, pad: string)
    requires IsBlank(pad) && s != [] && !IsWhiteSpace(s[|s| - 1])
    ensures TrimEnd(s + pad) == s
  {
    if pad != [] {
      var u := s + pad;
      assert u[..|u| - 1] == s + pad[..|pad| - 1];
      TrimEndPadded(s, pad[..|pad| - 1]);
    } else {
      assert s + pad == s;
    }
  }

  /** Duplicates are exact: "DB" is a new name next to "db". */
  lemma DuplicateCheckIsCaseSensitive()
    ensures Accept({"db"}, Some("DB")) == Ok("DB")
  {
    var t := "DB";
    assert !IsWhiteSpace(t[0]) && !IsWhiteSpace(t[|t| - 1]);
    TrimmedUnchanged(t);
    assert t[0] != "db"[0];
  }

  /** `NameDialog`: the names it refuses and the name it hands back. */
  class NameDialog {
    const existingNames: set<string>
    var tunnelName: Option<string>
    /** The value the dialog closed with, if it has closed. */
    var closedWith: Option<bool>

    constructor(existing: seq<string>)
      ensures existingNames == set n | n in existing
      ensures tunnelName.None? && closedWith.None?
    {
      existingNames := set n | n in existing;
      tunnelName := None;
      closedWith := None;
    }

    /** `BtnOK_Click`: a refused name leaves the dialog open and unchanged;
        an accepted one becomes `TunnelName` and closes it with true. */
    method BtnOkClick(text: Option<string>) returns (r: Result<string, NameRejection>)
      modifies this
      ensures r == Accept(existingNames, text)
      ensures r.Err? ==> tunnelName == old(tunnelName) && closedWith == old(closedWith)
      ensures r.Ok? ==> tunnelName == Some(r.value) && closedWith == Some(true)
    {
      var name := if text.None? then "" else Trim(text.value);
      if IsBlank(name) {
        return Err(EmptyName);
      }
      if name in existingNames {
        return Err(DuplicateName);
      }
      tunnelName := Some(name);
      closedWith := Some(true);
      r := Ok(name);
    }

    /** `BtnCancel_Click`. */
    method BtnCancelClick()
      modifies this
      ensures tunnelName.None? && closedWith == Some(false)
    {
      tunnelName := None;
      closedWith := Some(false);
    }
  }
}
