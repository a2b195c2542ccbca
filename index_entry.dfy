/**
 * IndexEntry: one document's searchable record, immutable once built, and the
 * Builder that assembles it. Besides pdf, audio, keywords and rawText the entry
 * carries date, title and passage, and the builder can start from an existing
 * entry (`from`): the metadata enhancer builds entries that way.
 */
module Entries {
  import opened Lang
  import opened Strings

  /** The fields of an entry; null stands for a field never set. */
  datatype Entry = Entry(
    pdf: string,
    audio: JString,
    keywords: JString,
    rawText: JString,
    date: JString,
    title: JString,
    passage: JString)

  /** Every entry that exists has a non-blank pdf: the constructor refuses the rest. */
  type IndexEntry = e: Entry | !IsBlank(NonNull(e.pdf))
    witness assert !IsWhitespace("-"[0]); Entry("-", Null, Null, Null, Null, Null, Null)

  /** IndexEntry.toString: the pdf name, never blank. */
  function ToString(e: IndexEntry): (r: string)
    ensures r == e.pdf
    ensures !IsBlank(NonNull(r))
  {
    e.pdf
  }

  /** The builder's fields as one value. */
  datatype Draft = Draft(
    pdf: JString,
    audio: JString,
    keywords: JString,
    rawText: JString,
    date: JString,
    title: JString,
    passage: JString)

  class Builder {
    var pdf: JString
    var audio: JString
    var keywords: JString
    var rawText: JString
    var date: JString
    var title: JString
    var passage: JString

    function Fields(): Draft
      reads this
    {
      Draft(pdf, audio, keywords, rawText, date, title, passage)
    }

    /** IndexEntry.builder(): every field starts out null. */
    constructor ()
      ensures Fields() == Draft(Null, Null, Null, Null, Null, Null, Null)
    {
      pdf, audio, keywords, rawText := Null, Null, Null, Null;
      date, title, passage := Null, Null, Null;
    }

    /** Copies every field of an existing entry. */
    method From(e: IndexEntry) returns (b: Builder)
      modifies this
      ensures b == this
      ensures Fields() == Draft(NonNull(e.pdf), e.audio, e.keywords, e.rawText, e.date, e.title, e.passage)
    {
      pdf, audio, keywords, rawText := NonNull(e.pdf), e.audio, e.keywords, e.rawText;
      date, title, passage := e.date, e.title, e.passage;
      return this;
    }

    method Pdf(v: JString) returns (b: Builder)
      modifies this
      ensures b == this && Fields() == old(Fields()).(pdf := v)
    {
      pdf := v;
      return this;
    }

    method Audio(v: JString) returns (b: Builder)
      modifies this
      ensures b == this && Fields() == old(Fields()).(audio := v)
    {
      audio := v;
      return this;
    }

    method Keywords(v: JString) returns (b: Builder)
      modifies this
      ensures b == this && Fields() == old(Fields()).(keywords := v)
    {
      keywords := v;
      return this;
    }

    method RawText(v: JString) returns (b: Builder)
      modifies this
      ensures b == this && Fields() == old(Fields()).(rawText := v)
    {
      rawText := v;
      return this;
    }

    method Date(v: JString) returns (b: Builder)
      modifies this
      ensures b == this && Fields() == old(Fields()).(date := v)
    {
      date := v;
      return this;
    }

    method Title(v: JString) returns (b: Builder)
      modifies this
      ensures b == this && Fields() == old(Fields()).(title := v)
    {
      title := v;
      return this;
    }

    method Passage(v: JString) returns (b: Builder)
      modifies this
      ensures b == this && Fields() == old(Fields()).(passage := v)
    {
      passage := v;
      return this;
    }

    /**
     * The entry holding exactly the builder's current fields; fails when the
     * pdf is null, empty or whitespace only.
     */
    method Build() returns (r: Result<IndexEntry>)
      ensures r.Ok? <==> !IsBlank(pdf)
      ensures r.Err? ==> r.error == BlankPdf
      ensures r.Ok? ==> r.value == Entry(pdf.value, audio, keywords, rawText, date, title, passage)
    {
      if IsBlank(pdf) {
        return Err(BlankPdf);
      }
      return Ok(Entry(pdf.value, audio, keywords, rawText, date, title, passage));
    }
  }
}
