/** What the copy and save actions hand to the browser (script.js `copyText`, `saveText`). */
module Export {
  import opened Wrappers
  import opened Text

  /** A file handed to the download service: its name and its plain-text content. */
  datatype Download = Download(filename: string, content: string)

  const FilePrefix := "speech-to-text-"
  const FileSuffix := ".txt"

  /** The download's name, from the strings `Date.toISOString()` and `Date.toTimeString()`
      return: `speech-to-text-`, the first 10 characters of the first (the date), a dash,
      the first 8 characters of the second (the time) with every ':' replaced by '-', and
      `.txt`. */
  function FileName(isoTimestamp: string, timeString: string): (name: string)
    ensures FilePrefix <= name
    ensures |name| == |FilePrefix| + |Prefix(isoTimestamp, 10)| + 1 + |Prefix(timeString, 8)| + |FileSuffix|
  {
    FilePrefix + Prefix(isoTimestamp, 10) + "-" + ReplaceChar(Prefix(timeString, 8), ':', '-') + FileSuffix
  }

  /** Reading the name back: after the fixed prefix come the date characters unchanged and a
      dash; then the time characters, each ':' turned into '-' and nothing else changed; then
      `.txt`. So the time part holds no ':'. */
  lemma FileNameParts(isoTimestamp: string, timeString: string)
    ensures var name, d, t := FileName(isoTimestamp, timeString), Prefix(isoTimestamp, 10), Prefix(timeString, 8);
      && name[|FilePrefix|..|FilePrefix| + |d|] == d
      && name[|FilePrefix| + |d|] == '-'
      && name[|name| - |FileSuffix|..] == FileSuffix
      && (forall i :: 0 <= i < |t| ==>
            name[|FilePrefix| + |d| + 1 + i] == if t[i] == ':' then '-' else t[i])
      && ':' !in name[|FilePrefix| + |d| + 1..|name| - |FileSuffix|]
  {
    var name, d, t := FileName(isoTimestamp, timeString), Prefix(isoTimestamp, 10), Prefix(timeString, 8);
    var time := ReplaceChar(t, ':', '-');
    assert name == FilePrefix + d + "-" + time + FileSuffix;
    var k := |FilePrefix| + |d| + 1;
    assert name[|FilePrefix|..|FilePrefix| + |d|] == d;
    assert name[k..|name| - |FileSuffix|] == time;
    assert name[|name| - |FileSuffix|..] == FileSuffix;
  }

  /** The text `copyText` hands to the clipboard: the trimmed display, or nothing when the
      trimmed display is empty. */
  function CopyPayload(display: string): (r: Option<string>)
    ensures r.Some? <==> !AllWhitespace(display)
    ensures r.Some? ==> r.value == Trim(display) && r.value != []
                        && !IsWhitespace(r.value[0]) && !IsWhitespace(r.value[|r.value| - 1])
  {
    TrimSpec(display);
    var text := Trim(display);
    if text != [] then Some(text) else None
  }

  /** The file `saveText` hands to the download service: the display exactly as it is, under
      the generated name, or nothing when the display is empty. */
  function SavePayload(display: string, isoTimestamp: string, timeString: string): Option<Download>
  {
    if display != [] then Some(Download(FileName(isoTimestamp, timeString), display)) else None
  }

  /** Save is more permissive than copy: whatever copy accepts, save accepts too, and the
      copied text is the saved content trimmed. A non-empty blank display is refused by copy
      but saved as it is. */
  lemma SaveAcceptsWhatCopyAccepts(display: string, isoTimestamp: string, timeString: string)
    ensures CopyPayload(display).Some? ==>
              SavePayload(display, isoTimestamp, timeString).Some?
              && CopyPayload(display).value == Trim(SavePayload(display, isoTimestamp, timeString).value.content)
    ensures display != [] && AllWhitespace(display) ==>
              CopyPayload(display) == None
              && SavePayload(display, isoTimestamp, timeString) == Some(Download(FileName(isoTimestamp, timeString), display))
  {
    if CopyPayload(display).Some? {
      TrimSpec(display);
      assert display != [];
    }
  }

  /** A save at 2024-01-02 03:04:05 UTC of "xin chào " keeps the trailing space and names
      the file speech-to-text-2024-01-02-03-04-05.txt. */
  lemma SaveExample()
    ensures SavePayload("xin chào ", "2024-01-02T03:04:05.000Z", "03:04:05 GMT+0000")
            == Some(Download(FilePrefix + "2024-01-02" + "-" + "03-04-05" + FileSuffix, "xin chào "))
  {
    var iso, clock := "2024-01-02T03:04:05.000Z", "03:04:05 GMT+0000";
    var date, time := Prefix(iso, 10), ReplaceChar(Prefix(clock, 8), ':', '-');
    assert date == "2024-01-02" by {
      assert |date| == 10 && date <= iso;
    }
    assert time == "03-04-05" by {
      assert Prefix(clock, 8) == "03:04:05";
      assert forall i :: 0 <= i < 8 ==> time[i] == "03-04-05"[i];
    }
    assert FileName(iso, clock) == FilePrefix + date + "-" + time + FileSuffix;
  }

  /** The date part is the UTC date while the time part is local time. At 03:04:05 on
      2024-01-02 in UTC+7 the UTC instant is 2024-01-01 20:04:05, so the file is named
      speech-to-text-2024-01-01-03-04-05.txt: the previous day's date with the local time. */
  lemma MixedZoneExample()
    ensures FileName("2024-01-01T20:04:05.000Z", "03:04:05 GMT+0700")
            == FilePrefix + "2024-01-01" + "-" + "03-04-05" + FileSuffix
  {
    var iso, clock := "2024-01-01T20:04:05.000Z", "03:04:05 GMT+0700";
    var date, time := Prefix(iso, 10), ReplaceChar(Prefix(clock, 8), ':', '-');
    assert date == "2024-01-01" by {
      assert |date| == 10 && date <= iso;
    }
    assert time == "03-04-05" by {
      assert Prefix(clock, 8) == "03:04:05";
      assert forall i :: 0 <= i < 8 ==> time[i] == "03-04-05"[i];
    }
  }

  /** Copying "  test  " hands over "test"; copying an empty or blank display hands over nothing. */
  lemma CopyExample()
    ensures CopyPayload("  test  ") == Some("test")
    ensures CopyPayload("") == None && CopyPayload(" \n\t") == None
  {
    var s := "  test  ";
    assert LeadingSpace(s) == 2 by {
      assert s[1..] == " test  " && s[1..][1..] == "test  ";
      assert LeadingSpace("test  ") == 0;
    }
    var rest := s[2..];
    assert rest == "test  ";
    assert TrailingSpace(rest) == 2 by {
      assert rest[..5] == "test " && rest[..5][..4] == "test";
      assert TrailingSpace("test") == 0;
    }
    assert Trim(s) == "test" by {
      assert rest[..4] == "test";
    }
    assert CopyPayload(s) == Some("test") by {
      TrimSpec(s);
    }
    assert CopyPayload(" \n\t") == None by {
      assert AllWhitespace(" \n\t");
    }
  }
}
