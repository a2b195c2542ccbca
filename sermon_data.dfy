/**
 * SermonData: one metadata record, read from a JSON object whose string
 * fields are pdf, audio, date, passage and title. The pdf path gives the
 * record's lookup name: what the pattern ".*\/(.+)" captures at the first
 * place Matcher.find() succeeds.
 */
module Sermons {
  import opened Lang
  import opened Strings
  import opened JsonTree

  const PDF := "pdf"
  const AUDIO := "audio"
  const DATE := "date"
  const PASSAGE := "passage"
  const TITLE := "title"

  /**
   * `m.getOrDefault(key, default)` used as a String: an absent key gives the
   * default, JSON null gives null, a string gives itself, and any other value
   * fails the cast to String.
   */
  function StringField(m: map<string, Json>, key: string, default: JString): Result<JString>
  {
    if key !in m then Ok(default)
    else match m[key]
      case JString(s) => Ok(NonNull(s))
      case JNull => Ok(Null)
      case _ => Err(NotAString(key))
  }

  /** A key that is absent, or holds a string or null. */
  predicate Castable(m: map<string, Json>, key: string) {
    key !in m || m[key].JString? || m[key].JNull?
  }

  /** Every field SermonData.from reads passes the cast to String. */
  predicate CastableFields(m: map<string, Json>) {
    Castable(m, AUDIO) && Castable(m, DATE) && Castable(m, PASSAGE) && Castable(m, PDF) && Castable(m, TITLE)
  }

  /** Java's string conversion of a possibly null String. */
  function Show(s: JString): string {
    if s.Null? then "null" else s.value
  }

  /** The last '/' of `line` that has at least one character after it. */
  function LastSlash(line: string): (r: Option<nat>)
    ensures r.Some? ==> r.value + 1 < |line| && line[r.value] == '/'
    ensures r.Some? ==> forall j :: r.value < j < |line| - 1 ==> line[j] != '/'
    ensures r.None? ==> forall j :: 0 <= j < |line| - 1 ==> line[j] != '/'
    decreases |line|
  {
    if |line| < 2 then None
    else if line[|line| - 2] == '/' then Some(|line| - 2)
    else LastSlash(line[..|line| - 1])
  }

  /** Index of the first line terminator, or |s|. */
  function LineEnd(s: string): (k: nat)
    ensures k <= |s|
    ensures k < |s| ==> IsLineTerminator(s[k])
    ensures forall j :: 0 <= j < k ==> !IsLineTerminator(s[j])
  {
    if s == [] then 0
    else if IsLineTerminator(s[0]) then 0
    else 1 + LineEnd(s[1..])
  }

  /** `name` occurs in `s` right after a '/'. */
  predicate FollowsSlash(s: string, name: string) {
    exists i :: 0 <= i && i + 1 + |name| <= |s| && s[i] == '/' && s[i + 1..i + 1 + |name|] == name
  }

  lemma FollowsSlashAt(s: string, name: string, i: nat)
    requires i + 1 + |name| <= |s| && s[i] == '/'
    requires forall j :: 0 <= j < |name| ==> name[j] == s[i + 1 + j]
    ensures FollowsSlash(s, name)
  {
    assert s[i + 1..i + 1 + |name|] == name;
  }

  lemma FollowsSlashShift(s: string, k: nat, name: string)
    requires k <= |s| && FollowsSlash(s[k..], name)
    ensures FollowsSlash(s, name)
  {
    var t := s[k..];
    var j :| 0 <= j && j + 1 + |name| <= |t| && t[j] == '/' && t[j + 1..j + 1 + |name|] == name;
    FollowsSlashAt(s, name, k + j);
  }

  /**
   * Matcher.find() of ".*\/(.+)" followed by group(1). '.' matches no line
   * terminator, so a match lies within one line; the first line that has a
   * '/' followed by a character matches, and the greedy ".*" picks its last
   * such '/', after which ".+" takes the rest of the line.
   */
  function NameMatch(s: string): (r: Option<string>)
    ensures r.Some? ==> 0 < |r.value| < |s|
    ensures r.Some? ==> '/' in s
    ensures r.Some? ==> FollowsSlash(s, r.value)
    ensures r.Some? ==> !HasLineTerminator(r.value)
    decreases |s|
  {
    var k := LineEnd(s);
    var line := s[..k];
    match LastSlash(line)
    case Some(i) =>
      var name := line[i + 1..];
      assert s[i] == '/';
      assert forall j :: 0 <= j < |name| ==> name[j] == line[i + 1 + j];
      FollowsSlashAt(s, name, i);
      Some(name)
    case None =>
      if k == |s| then None
      else
        var rest := NameMatch(s[k + 1..]);
        assert rest.Some? ==> '/' in s by {
          if rest.Some? {
            var j :| 0 <= j < |s[k + 1..]| && s[k + 1..][j] == '/';
            assert s[k + 1 + j] == '/';
          }
        }
        assert rest.Some? ==> FollowsSlash(s, rest.value) by {
          if rest.Some? {
            FollowsSlashShift(s, k + 1, rest.value);
          }
        }
        rest
  }

  /**
   * Without line terminators the name is what follows the last '/' that has
   * a character after it, and there is none when no such '/' exists.
   */
  lemma NameMatchSingleLine(s: string)
    requires !HasLineTerminator(s)
    ensures NameMatch(s).None? <==> forall j :: 0 <= j < |s| - 1 ==> s[j] != '/'
    ensures NameMatch(s).Some? ==> LastSlash(s).Some? && NameMatch(s).value == s[LastSlash(s).value + 1..]
  {
    assert LineEnd(s) == |s|;
    assert s[..|s|] == s;
  }

  /** The same, for a given last '/'. */
  lemma NameAfterLastSlash(s: string, i: nat)
    requires !HasLineTerminator(s)
    requires i + 1 < |s| && s[i] == '/'
    requires forall j :: i < j < |s| - 1 ==> s[j] != '/'
    ensures NameMatch(s) == Some(s[i + 1..])
  {
    NameMatchSingleLine(s);
  }

  /** The example the enhancer's source carries in a comment. */
  lemma NameMatchExample(s: string)
    requires s == "pdf/1John/1John01.pdf"
    ensures NameMatch(s) == Some("1John01.pdf")
  {
    var dir, name := "pdf/1John/", "1John01.pdf";
    assert s == dir + name;
    assert !HasLineTerminator(s) by {
      assert forall j :: 0 <= j < |dir| ==> !IsLineTerminator(dir[j]);
      assert forall j :: 0 <= j < |name| ==> !IsLineTerminator(name[j]);
      assert forall j :: 0 <= j < |s| ==> s[j] == if j < |dir| then dir[j] else name[j - |dir|];
    }
    assert forall j :: 9 < j < |s| - 1 ==> s[j] != '/' by {
      assert forall j :: 0 <= j < |name| ==> name[j] != '/';
      assert forall j :: |dir| <= j < |s| ==> s[j] == name[j - |dir|];
    }
    NameAfterLastSlash(s, 9);
    assert s[10..] == name;
  }

  datatype SermonData = SermonData(
    audio: JString,
    date: JString,
    passage: JString,
    pdf: string,
    title: JString)
  {
    /** getPdfName: fails when the pdf path has no name after a '/'. */
    function PdfName(): (r: Result<string>)
      ensures r.Ok? <==> NameMatch(pdf).Some?
      ensures r.Ok? ==> r.value == NameMatch(pdf).value && 0 < |r.value| < |pdf|
      ensures r.Err? ==> r.error == Undistillable(pdf)
    {
      match NameMatch(pdf)
      case Some(name) => Ok(name)
      case None => Err(Undistillable(pdf))
    }

    /** No field, as printed, contains the separator '|'. */
    predicate SeparatorFree() {
      && '|' !in pdf && '|' !in Show(audio) && '|' !in Show(title)
      && '|' !in Show(passage) && '|' !in Show(date)
    }

    /**
     * pdf|audio|title|passage|date, null fields printed as "null"; the five
     * fields come back by splitting at '|' when none of them contains one.
     */
    function ToString(): (r: string)
      ensures SeparatorFree() ==> Split(r, '|') == [pdf, Show(audio), Show(title), Show(passage), Show(date)]
    {
      var parts := [pdf, Show(audio), Show(title), Show(passage), Show(date)];
      var r := pdf + "|" + Show(audio) + "|" + Show(title) + "|" + Show(passage) + "|" + Show(date);
      assert r == Join(parts, '|') by {
        assert parts[1..][1..][1..][1..] == [Show(date)];
        assert Join(parts[3..], '|') == Show(passage) + "|" + Show(date) by {
          assert parts[3..][1..] == parts[4..];
        }
        assert Join(parts[2..], '|') == Show(title) + "|" + Show(passage) + "|" + Show(date) by {
          assert parts[2..][1..] == parts[3..];
        }
        assert Join(parts[1..], '|') == Show(audio) + "|" + Show(title) + "|" + Show(passage) + "|" + Show(date) by {
          assert parts[1..][1..] == parts[2..];
        }
      }
      assert SeparatorFree() ==> Split(r, '|') == parts by {
        if SeparatorFree() {
          SplitJoin(parts, '|');
        }
      }
      r
    }
  }

  /**
   * SermonData.from: each optional field defaults to "" when absent, pdf to
   * null, and a record whose pdf ends up null is refused. The casts of the
   * five values happen before the null check, in argument order.
   */
  function From(m: map<string, Json>): (r: Result<SermonData>)
    ensures r.Ok? <==> PDF in m && m[PDF].JString? && CastableFields(m)
    ensures PDF !in m ==> r.Err?
    ensures CastableFields(m) && (PDF !in m || m[PDF].JNull?) ==> r == Err(NoPdf)
    ensures r.Ok? ==> r.value.pdf == m[PDF].s
    ensures r.Ok? && AUDIO !in m ==> r.value.audio == NonNull("")
    ensures r.Ok? && DATE !in m ==> r.value.date == NonNull("")
    ensures r.Ok? && PASSAGE !in m ==> r.value.passage == NonNull("")
    ensures r.Ok? && TITLE !in m ==> r.value.title == NonNull("")
    ensures r.Ok? ==> StringField(m, AUDIO, NonNull("")) == Ok(r.value.audio)
    ensures r.Ok? ==> StringField(m, DATE, NonNull("")) == Ok(r.value.date)
    ensures r.Ok? ==> StringField(m, PASSAGE, NonNull("")) == Ok(r.value.passage)
    ensures r.Ok? ==> StringField(m, TITLE, NonNull("")) == Ok(r.value.title)
  {
    var audio :- StringField(m, AUDIO, NonNull(""));
    var date :- StringField(m, DATE, NonNull(""));
    var passage :- StringField(m, PASSAGE, NonNull(""));
    var pdf :- StringField(m, PDF, Null);
    var title :- StringField(m, TITLE, NonNull(""));
    if pdf.Null? then Err(NoPdf)
    else Ok(SermonData(audio, date, passage, pdf.value, title))
  }
}
