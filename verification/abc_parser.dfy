/**
 Tune segmentation and field extraction (`abc_parser.py`).

 A file's decoded text is cut at every newline that is directly followed by
 `X:` (the pattern `\n(?=X:)`); the newline itself is consumed. Sections whose
 stripped text does not start with `X:` are dropped, and every other section
 becomes one tune record whose fields are read from its lines by prefix.
 */
module AbcParser {
  import opened Base
  import opened Text
  import opened Positions

  /** Index `i` of `s` is a match of `\n(?=X:)`: a newline followed by `X:`. */
  predicate TuneBreak(s: string, i: int) {
    0 <= i && i + 2 < |s| && s[i] == '\n' && s[i + 1] == 'X' && s[i + 2] == ':'
  }

  /** The first tune break at or after `from`, if any. */
  function NextBreak(s: string, from: nat): (r: Option<nat>)
    requires from <= |s|
    ensures r.None? ==> forall i :: from <= i ==> !TuneBreak(s, i)
    ensures r.Some? ==> from <= r.value && TuneBreak(s, r.value)
    ensures r.Some? ==> forall i :: from <= i < r.value ==> !TuneBreak(s, i)
    decreases |s| - from
  {
    if |s| <= from + 2 then None
    else if TuneBreak(s, from) then Some(from)
    else NextBreak(s, from + 1)
  }

  /**
   `re.split(r'\n(?=X:)', content)`. Joining the sections with the consumed
   newlines gives back the content; every section but the first starts with
   `X:`; and no section contains a break of its own.
   */
  function SplitTunes(content: string): (sections: seq<string>)
    ensures |sections| > 0
    ensures Join(sections, "\n") == content
    ensures "X:" <= content ==> "X:" <= sections[0]
    ensures forall k :: 1 <= k < |sections| ==> "X:" <= sections[k]
    ensures forall k, i :: 0 <= k < |sections| ==> !TuneBreak(sections[k], i)
    decreases |content|
  {
    match NextBreak(content, 0)
    case None => [content]
    case Some(b) =>
      var head := content[..b];
      var rest := SplitTunes(content[b + 1..]);
      assert content == head + "\n" + content[b + 1..];
      assert "X:" <= content[b + 1..];
      assert forall i :: TuneBreak(head, i) ==> TuneBreak(content, i);
      assert ([head] + rest)[1..] == rest;
      [head] + rest
  }

  /**
   The three properties of `SplitTunes` determine its result: any way of
   cutting `content` at newlines whose pieces after the first start with `X:`
   and contain no break is the split.
   */
  lemma {:induction false} SplitTunesUnique(content: string, parts: seq<string>)
    requires |parts| > 0 && Join(parts, "\n") == content
    requires forall k :: 1 <= k < |parts| ==> "X:" <= parts[k]
    requires forall k, i :: 0 <= k < |parts| ==> !TuneBreak(parts[k], i)
    ensures parts == SplitTunes(content)
    decreases |parts|
  {
    if |parts| == 1 {
      assert forall i :: !TuneBreak(content, i) by {
        assert content == parts[0];
      }
    } else {
      var head, tail := parts[0], Join(parts[1..], "\n");
      assert content == head + "\n" + tail;
      assert "X:" <= tail by {
        assert parts[1] == parts[1..][0];
      }
      FirstBreak(content, head, tail);
      SplitTunesUnique(tail, parts[1..]);
      assert parts == [head] + parts[1..];
    }
  }

  /** A piece without breaks, a newline and a text starting with `X:`: the first break is that newline. */
  lemma FirstBreak(content: string, head: string, tail: string)
    requires content == head + "\n" + tail
    requires "X:" <= tail
    requires forall i :: !TuneBreak(head, i)
    ensures NextBreak(content, 0) == Some(|head|)
    ensures content[..|head|] == head && content[|head| + 1..] == tail
  {
    var b := |head|;
    assert TuneBreak(content, b);
    forall i | 0 <= i < b
      ensures !TuneBreak(content, i)
    {
      if i + 2 < b {
        assert content[i] == head[i] && content[i + 1] == head[i + 1] && content[i + 2] == head[i + 2];
        assert !TuneBreak(head, i);
      }
    }
  }

  /** One tune record: the six keys of the dictionary `parse_single_tune` returns. */
  datatype Tune = Tune(
    referenceNumber: string,
    title: string,
    tuneType: string,
    meter: string,
    key: string,
    abcNotation: string)

  /**
   The stripped text starts with `tag` followed by `:` (`text.strip().startswith(tag + ':')`):
   for a line, that it declares field `tag`; for a section, with `X`, that it is a tune.
   */
  predicate Declares(text: string, tag: char) {
    var s := Strip(text);
    2 <= |s| && s[0] == tag && s[1] == ':'
  }

  /** `line[2:].strip()` of the stripped line: the value a field line declares. */
  function FieldValue(line: string): string
    requires 2 <= |Strip(line)|
  {
    Strip(Strip(line)[2..])
  }

  /** The field of a record that lines tagged `tag` set (`X`, `T`, `R`, `M`, `K`). */
  function Field(t: Tune, tag: char): string {
    match tag
    case 'X' => t.referenceNumber
    case 'T' => t.title
    case 'R' => t.tuneType
    case 'M' => t.meter
    case 'K' => t.key
    case _ => ""
  }

  /** The fields whose last declaration wins. */
  const LastWins: seq<char> := "XRMK"

  /** One iteration of the line loop of `parse_single_tune`. */
  function ApplyLine(t: Tune, raw: string): Tune {
    if Declares(raw, 'X') then t.(referenceNumber := FieldValue(raw))
    else if Declares(raw, 'T') && t.title == "" then t.(title := FieldValue(raw))
    else if Declares(raw, 'R') then t.(tuneType := FieldValue(raw))
    else if Declares(raw, 'M') then t.(meter := FieldValue(raw))
    else if Declares(raw, 'K') then t.(key := FieldValue(raw))
    else t
  }

  /**
   The prefixes differ in their first character, so a line touches at most
   one field: for `X`, `R`, `M` and `K` a declaring line overwrites the field
   and any other line leaves it alone.
   */
  lemma ApplyLineLastWins(t: Tune, raw: string, tag: char)
    requires tag in LastWins
    ensures Field(ApplyLine(t, raw), tag) == if Declares(raw, tag) then FieldValue(raw) else Field(t, tag)
  {
  }

  /** A `T:` line sets the title only while it is still empty; no other line touches it. */
  lemma ApplyLineTitle(t: Tune, raw: string)
    ensures ApplyLine(t, raw).title == if Declares(raw, 'T') && t.title == "" then FieldValue(raw) else t.title
  {
  }

  /** The line loop of `parse_single_tune`, from record `t`. */
  function ExtractFields(t: Tune, lines: seq<string>): (r: Tune)
    ensures r.abcNotation == t.abcNotation
    decreases |lines|
  {
    if |lines| == 0 then t else ExtractFields(ApplyLine(t, lines[0]), lines[1..])
  }

  /**
   `v` is the value of the last line declaring `tag`, or `unset` when no line
   declares it.
   */
  ghost predicate LastValue(lines: seq<string>, tag: char, v: string, unset: string) {
    if forall i :: 0 <= i < |lines| ==> !Declares(lines[i], tag) then v == unset
    else
      exists i :: 0 <= i < |lines| && Declares(lines[i], tag) && v == FieldValue(lines[i]) &&
        forall j :: i < j < |lines| ==> !Declares(lines[j], tag)
  }

  /**
   `v` is the value of the first line declaring `tag` with a non-empty value,
   or `""` when every such line declares an empty value.
   */
  ghost predicate FirstNonEmptyValue(lines: seq<string>, tag: char, v: string) {
    if forall i :: 0 <= i < |lines| && Declares(lines[i], tag) ==> FieldValue(lines[i]) == "" then v == ""
    else
      exists i :: 0 <= i < |lines| && Declares(lines[i], tag) && v == FieldValue(lines[i]) && v != "" &&
        forall j :: 0 <= j < i && Declares(lines[j], tag) ==> FieldValue(lines[j]) == ""
  }

  /** For `X`, `R`, `M` and `K` the loop leaves the last declared value. */
  lemma {:induction false} ExtractLastWins(t: Tune, lines: seq<string>, tag: char)
    requires tag in LastWins
    ensures LastValue(lines, tag, Field(ExtractFields(t, lines), tag), Field(t, tag))
    decreases |lines|
  {
    if |lines| > 0 {
      var t', rest := ApplyLine(t, lines[0]), lines[1..];
      var v := Field(ExtractFields(t', rest), tag);
      ApplyLineLastWins(t, lines[0], tag);
      ExtractLastWins(t', rest, tag);
      if exists i :: 0 <= i < |rest| && Declares(rest[i], tag) {
        var i :| 0 <= i < |rest| && Declares(rest[i], tag) && v == FieldValue(rest[i])
          && forall j :: i < j < |rest| ==> !Declares(rest[j], tag);
        assert Declares(lines[i + 1], tag) && lines[i + 1] == rest[i];
        assert forall j :: i + 1 < j < |lines| ==> lines[j] == rest[j - 1];
      } else {
        assert forall j :: 1 <= j < |lines| ==> lines[j] == rest[j - 1];
        if Declares(lines[0], tag) {
          assert v == FieldValue(lines[0]);
        }
      }
    }
  }

  /** While the title is empty the loop leaves the first non-empty declared title; once set, it keeps it. */
  lemma {:induction false} ExtractFirstTitle(t: Tune, lines: seq<string>)
    ensures t.title != "" ==> ExtractFields(t, lines).title == t.title
    ensures t.title == "" ==> FirstNonEmptyValue(lines, 'T', ExtractFields(t, lines).title)
    decreases |lines|
  {
    if |lines| > 0 {
      var t', rest := ApplyLine(t, lines[0]), lines[1..];
      var v := ExtractFields(t', rest).title;
      ApplyLineTitle(t, lines[0]);
      ExtractFirstTitle(t', rest);
      assert forall j :: 1 <= j < |lines| ==> lines[j] == rest[j - 1];
      if t.title == "" {
        if Declares(lines[0], 'T') && FieldValue(lines[0]) != "" {
          assert v == FieldValue(lines[0]);
        } else if exists i :: 0 <= i < |rest| && Declares(rest[i], 'T') && FieldValue(rest[i]) != "" {
          var i :| 0 <= i < |rest| && Declares(rest[i], 'T') && v == FieldValue(rest[i]) && v != ""
            && forall j :: 0 <= j < i && Declares(rest[j], 'T') ==> FieldValue(rest[j]) == "";
          assert Declares(lines[i + 1], 'T') && lines[i + 1] == rest[i];
        }
      }
    }
  }

  /** The record every parse starts from: all fields empty, the notation verbatim. */
  function Blank(text: string): Tune {
    Tune("", "", "", "", "", text)
  }

  /** The lines `parse_single_tune` loops over. */
  function Lines(text: string): seq<string> {
    SplitLines(text)
  }

  /** `parse_single_tune(text)`: total, and it keeps the notation verbatim. */
  function ParseSingleTune(text: string): (r: Tune)
    ensures r.abcNotation == text
  {
    ExtractFields(Blank(text), Lines(text))
  }

  /**
   In the record `parse_single_tune` returns, the reference number, type,
   meter and key are each the last value declared for them, or `""` when the
   tune never declares them.
   */
  lemma ParseSingleTuneLastWins(text: string, tag: char)
    requires tag in LastWins
    ensures LastValue(Lines(text), tag, Field(ParseSingleTune(text), tag), "")
  {
    ExtractLastWins(Blank(text), Lines(text), tag);
    assert Field(Blank(text), tag) == "";
  }

  /** The title is the first non-empty `T:` value, or `""` when there is none. */
  lemma ParseSingleTuneTitle(text: string)
    ensures FirstNonEmptyValue(Lines(text), 'T', ParseSingleTune(text).title)
  {
    ExtractFirstTitle(Blank(text), Lines(text));
  }

  /** `section.strip().startswith('X:')`: the sections kept as tunes. */
  predicate IsTuneSection(section: string) {
    Declares(section, 'X')
  }

  /** The section loop of `parse_abc_file`: one record per kept section, in order. */
  function ParseSections(sections: seq<string>): seq<Tune> {
    Select(sections, IsTuneSection, ParseSingleTune)
  }

  /** `parse_abc_file` on content already read and decoded. */
  function ParseAbcFile(content: string): seq<Tune> {
    ParseSections(SplitTunes(content))
  }

  /**
   `parse_abc_file` keeps one record per section of the split whose stripped
   text starts with `X:`, in file order, and nothing else: `at` lists the
   positions of the kept sections, and record `k` is the parse of the section
   at `at[k]`.
   */
  lemma ParseAbcFileKeepsTuneSections(content: string) returns (at: seq<nat>)
    ensures |at| == |ParseAbcFile(content)|
    ensures forall k :: 0 <= k < |at| ==>
      at[k] < |SplitTunes(content)| && ParseAbcFile(content)[k] == ParseSingleTune(SplitTunes(content)[at[k]])
    ensures forall k, l :: 0 <= k < l < |at| ==> at[k] < at[l]
    ensures forall i :: 0 <= i < |SplitTunes(content)| ==> (IsTuneSection(SplitTunes(content)[i]) <==> i in at)
  {
    var sections := SplitTunes(content);
    at := Kept(sections, IsTuneSection);
    SelectPick(sections, IsTuneSection, ParseSingleTune);
    KeptIncrease(sections, IsTuneSection);
    KeptExact(sections, IsTuneSection);
  }

  /** Every record `parse_abc_file` returns comes from a section declaring `X:`, and carries that section as its notation. */
  lemma ParseAbcFileRecords(content: string)
    ensures |ParseAbcFile(content)| <= |SplitTunes(content)|
    ensures forall k :: 0 <= k < |ParseAbcFile(content)| ==>
      var t := ParseAbcFile(content)[k];
      t.abcNotation in SplitTunes(content) && IsTuneSection(t.abcNotation) && t == ParseSingleTune(t.abcNotation)
  {
    var sections := SplitTunes(content);
    SelectPick(sections, IsTuneSection, ParseSingleTune);
    KeptIncrease(sections, IsTuneSection);
    KeptLength(sections, IsTuneSection);
  }

  /** The dictionary `parse_single_tune` returns, keyed as the source keys it. */
  function AsDict(t: Tune): (d: map<string, string>)
    ensures d.Keys == {"reference_number", "title", "type", "meter", "key", "abc_notation"}
  {
    map[
      "reference_number" := t.referenceNumber,
      "title" := t.title,
      "type" := t.tuneType,
      "meter" := t.meter,
      "key" := t.key,
      "abc_notation" := t.abcNotation]
  }
}
