/** `buildinfo.String` (internal/buildinfo/buildinfo.go). `Version` and `Commit` are package
    variables set by the linker; here they are parameters. Go measures and slices the commit in
    bytes, so the model works on the UTF-8 bytes of both strings. */
module BuildInfo {
  import Text

  const DefaultVersion: string := "dev"
  const DefaultCommit: string := "unknown"

  /** The bytes of the version string. */
  function String(version: string, commit: string): (r: seq<Text.Byte>)
  {
    var c := Text.Utf8Encode(commit);
    if commit == "unknown" || |c| < 7 then Text.Utf8Encode(version)
    else Text.Utf8Encode(version) + Text.Utf8Encode(" (") + c[..7] + Text.Utf8Encode(")")
  }

  /** The version alone for an unknown or short commit; otherwise the version, a space and the
      first seven bytes of the commit in parentheses. Either way the result starts with the
      version. */
  lemma StringShape(version: string, commit: string)
    ensures var v := Text.Utf8Encode(version);
            var r := String(version, commit);
            |v| <= |r| && r[..|v|] == v
    ensures commit == "unknown" || |Text.Utf8Encode(commit)| < 7 ==> String(version, commit) == Text.Utf8Encode(version)
    ensures commit != "unknown" && |Text.Utf8Encode(commit)| >= 7 ==>
              |String(version, commit)| == |Text.Utf8Encode(version)| + 10
  {
  }

  /** For an ASCII commit hash the bytes are those of `version + " (" + commit[..7] + ")"`. */
  lemma {:induction false} StringAscii(version: string, commit: string)
    requires Text.IsAscii(commit) && |commit| >= 7 && commit != "unknown"
    ensures String(version, commit) == Text.Utf8Encode(version + " (" + commit[..7] + ")")
  {
    Text.Utf8Ascii(commit);
    Text.Utf8Ascii(commit[..7]);
    assert Text.Utf8Encode(commit)[..7] == Text.Utf8Encode(commit[..7]) by {
      Text.Utf8Append(commit[..7], commit[7..]);
      assert commit[..7] + commit[7..] == commit;
    }
    Text.Utf8Append(version, " (");
    Text.Utf8Append(version + " (", commit[..7]);
    Text.Utf8Append(version + " (" + commit[..7], ")");
  }

  /** A development build with no commit shows only "dev". */
  lemma DefaultsExample()
    ensures String(DefaultVersion, DefaultCommit) == Text.Utf8Encode("dev")
  {
  }
}
