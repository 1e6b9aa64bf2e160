/** Reading one line of an FTP `LIST` reply. Section 4.1.3 of RFC 959 leaves
    the reply format to the server; the backup code assumes Unix `ls -l`
    lines: permissions, link count, owner, group, size, three date fields,
    then the name. */
module FtpList {
  import opened Seqs
  import opened Text

  /** A name read from a listing and whether it denotes a directory. */
  datatype Listed = Listed(name: string, isDir: bool)

  /** One `LIST` line: lines with fewer than nine whitespace-separated fields
      and the names `.` and `..` are skipped; the name is the ninth field
      onwards joined by single spaces; a permission field starting with `d`
      marks a directory. */
  function ParseListLine(line: string): Option<Listed>
  {
    var fields := Split(line);
    if |fields| < 9 then None
    else
      var name := JoinWith(fields[8..], " ");
      if name == "." || name == ".." then None
      else Some(Listed(name, fields[0] != [] && fields[0][0] == 'd'))
  }

  /** A well-formed line, fields separated by single spaces, yields the name
      it was built from and the directory flag of its permission field. */
  lemma ParseWellFormedLine(fields: seq<string>)
    requires |fields| >= 9
    requires AreFields(fields)
    requires JoinWith(fields[8..], " ") != "." && JoinWith(fields[8..], " ") != ".."
    ensures ParseListLine(JoinWith(fields, " ")) ==
            Some(Listed(JoinWith(fields[8..], " "), fields[0][0] == 'd'))
  {
    SplitJoined(fields);
    assert fields[0] != [];
  }

  /** Too few fields: the line is skipped whatever it holds. */
  lemma ShortLineSkipped(fields: seq<string>)
    requires |fields| < 9
    requires AreFields(fields)
    ensures ParseListLine(JoinWith(fields, " ")) == None
  {
    SplitJoined(fields);
  }

  /** Lines whose splits agree parse alike. */
  lemma SameSplitSameParse(x: string, y: string)
    requires Split(x) == Split(y)
    ensures ParseListLine(x) == ParseListLine(y)
  {
  }

  lemma SplitGapLast(fields: seq<string>, gap: string, last: string)
    requires AreFields(fields)
    requires last != [] && NoSpace(last)
    requires gap != [] && forall i :: 0 <= i < |gap| ==> IsSpace(gap[i])
    ensures Split(JoinWith(fields, " ") + gap + last) == fields + [last]
  {
    var joined := JoinWith(fields, " ");
    var tail := gap + last;
    assert joined + gap + last == joined + tail;
    assert tail[0] == gap[0];
    SplitJoinRoundTrip(fields, tail);
    SplitSkipsSpaces(gap, last);
    SplitWord(last);
  }

  lemma SplitWord(w: string)
    requires w != [] && NoSpace(w)
    ensures Split(w) == [w]
  {
    SplitAtField(w, "");
    assert w + "" == w;
  }

  lemma SplitJoined(all: seq<string>)
    requires AreFields(all)
    ensures Split(JoinWith(all, " ")) == all
  {
    SplitJoinRoundTrip(all, "");
    assert JoinWith(all, " ") + "" == JoinWith(all, " ");
    assert all + Split("") == all;
  }

  /** A run of separators before the last word reads like a single space:
      a file listed as `a  b` (two spaces) is recorded as `a b`. */
  lemma NameSpacesCollapse(fields: seq<string>, gap: string, last: string)
    requires |fields| >= 9
    requires AreFields(fields + [last])
    requires gap != [] && forall i :: 0 <= i < |gap| ==> IsSpace(gap[i])
    ensures ParseListLine(JoinWith(fields, " ") + gap + last) ==
            ParseListLine(JoinWith(fields + [last], " "))
  {
    var all := fields + [last];
    assert AreFields(fields) by {
      forall i | 0 <= i < |fields| ensures all[i] == fields[i] { }
    }
    assert last == all[|fields|];
    SplitGapLast(fields, gap, last);
    SplitJoined(all);
    SameSplitSameParse(JoinWith(fields, " ") + gap + last, JoinWith(all, " "));
  }
}
