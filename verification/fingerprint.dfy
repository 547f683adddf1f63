/**
 * The content fingerprint of a thread (src/gmail_summarizer/cache_manager.py): each message
 * is reduced to its id, subject, from, date and body, written as a JSON object with sorted
 * keys, the objects are joined with line breaks, and the text is hashed with SHA-256.
 *
 * SHA-256 itself is not computed: a `Digest` is the hashed text, so two digests are equal
 * exactly when the texts are, which is the collision freedom the cache relies on. The proof
 * work is in the text: a reader for it shows that the text determines the fields.
 */
module Fingerprint {
  import opened Common
  import opened PyStr
  import opened JsonText
  import opened Records

  /** The message fields that enter the fingerprint. */
  datatype HashedFields = HashedFields(id: string, subject: string, sender: string, date: string, body: string)

  function FieldsOf(m: Message): HashedFields {
    HashedFields(m.id, m.subject, m.sender, m.date, m.body)
  }

  function AllFields(msgs: seq<Message>): (fs: seq<HashedFields>)
    ensures |fs| == |msgs| && forall i :: 0 <= i < |msgs| ==> fs[i] == FieldsOf(msgs[i])
  {
    if msgs == [] then [] else [FieldsOf(msgs[0])] + AllFields(msgs[1..])
  }

  /** `key` followed by the JSON literal of `value`, then the rest of the object. */
  function Member(key: string, value: string, rest: string): string {
    key + Quoted(value) + rest
  }

  /**
   * `json.dumps(fields, sort_keys=True)`: the keys in sorted order (body, date, from, id,
   * subject), with the default separators `", "` and `": "`.
   */
  function MessageJson(f: HashedFields): string {
    Member("{\"body\": ", f.body,
    Member(", \"date\": ", f.date,
    Member(", \"from\": ", f.sender,
    Member(", \"id\": ", f.id,
    Member(", \"subject\": ", f.subject, "}")))))
  }

  /** The text that is hashed: one JSON object per message, joined with `"\n"`. */
  function ContentText(fs: seq<HashedFields>): string {
    Join("\n", MessageLines(fs))
  }

  function MessageLines(fs: seq<HashedFields>): (lines: seq<string>)
    ensures |lines| == |fs| && forall i :: 0 <= i < |fs| ==> lines[i] == MessageJson(fs[i])
  {
    if fs == [] then [] else [MessageJson(fs[0])] + MessageLines(fs[1..])
  }

  /** A SHA-256 digest, standing for the text it was computed from. */
  datatype Digest = Sha256(text: string)

  /** `_calculate_thread_hash(messages)` */
  function ThreadHash(msgs: seq<Message>): Digest {
    Sha256(ContentText(AllFields(msgs)))
  }

  /**
   * Extension, not in the shown cache: the fingerprint of a thread together with the prompt
   * it is summarised with. The prompt is written as one more line, a JSON string literal,
   * after the message objects.
   */
  function ThreadHashWithPrompt(msgs: seq<Message>, prompt: string): Digest {
    Sha256(Join("\n", MessageLines(AllFields(msgs)) + [Quoted(prompt)]))
  }

  // ---- Reading the text back ----

  /** Reads `key` and then a JSON string literal; gives the string and what follows it. */
  function ReadMember(key: string, t: string): Option<(string, string)> {
    if StartsWith(t, key) then ReadString(t[|key|..]) else None
  }

  function ReadMessageJson(t: string): Option<HashedFields> {
    match ReadMember("{\"body\": ", t)
    case None => None
    case Some((body, t1)) =>
      match ReadMember(", \"date\": ", t1)
      case None => None
      case Some((date, t2)) =>
        match ReadMember(", \"from\": ", t2)
        case None => None
        case Some((sender, t3)) =>
          match ReadMember(", \"id\": ", t3)
          case None => None
          case Some((id, t4)) =>
            match ReadMember(", \"subject\": ", t4)
            case None => None
            case Some((subject, t5)) =>
              if t5 == "}" then Some(HashedFields(id, subject, sender, date, body)) else None
  }

  /** Reads every line with `read`; fails when any line does. */
  function ReadLines<T>(lines: seq<string>, read: string -> Option<T>): Option<seq<T>> {
    if lines == [] then Some([])
    else
      match read(lines[0])
      case None => None
      case Some(x) =>
        match ReadLines(lines[1..], read)
        case None => None
        case Some(xs) => Some([x] + xs)
  }

  function ReadMessageLines(lines: seq<string>): Option<seq<HashedFields>> {
    ReadLines(lines, ReadMessageJson)
  }

  /** Reads the hashed text back into the fields it was written from. */
  function ReadContentText(t: string): Option<seq<HashedFields>> {
    if t == [] then Some([]) else ReadMessageLines(Split(t, '\n'))
  }

  lemma ReadMemberLemma(key: string, value: string, rest: string)
    ensures ReadMember(key, Member(key, value, rest)) == Some((value, rest))
  {
    var t := Member(key, value, rest);
    assert t[..|key|] == key;
    assert t[|key|..] == Quoted(value) + rest;
    ReadQuoted(value, rest);
  }

  lemma ReadMessageJsonLemma(f: HashedFields)
    ensures ReadMessageJson(MessageJson(f)) == Some(f)
  {
    var t4 := Member(", \"subject\": ", f.subject, "}");
    var t3 := Member(", \"id\": ", f.id, t4);
    var t2 := Member(", \"from\": ", f.sender, t3);
    var t1 := Member(", \"date\": ", f.date, t2);
    ReadMemberLemma("{\"body\": ", f.body, t1);
    ReadMemberLemma(", \"date\": ", f.date, t2);
    ReadMemberLemma(", \"from\": ", f.sender, t3);
    ReadMemberLemma(", \"id\": ", f.id, t4);
    ReadMemberLemma(", \"subject\": ", f.subject, "}");
  }

  /** A member whose key and continuation have no line break has none. */
  lemma MemberOneLine(key: string, value: string, rest: string)
    requires '\n' !in key && '\n' !in rest
    ensures '\n' !in Member(key, value, rest)
  {
    QuotedPrintable(value);
    assert '\n' !in Quoted(value);
  }

  /** A message object is written on one line, and it is never empty. */
  lemma MessageJsonOneLine(f: HashedFields)
    ensures MessageJson(f) != [] && '\n' !in MessageJson(f)
  {
    var t4 := Member(", \"subject\": ", f.subject, "}");
    var t3 := Member(", \"id\": ", f.id, t4);
    var t2 := Member(", \"from\": ", f.sender, t3);
    var t1 := Member(", \"date\": ", f.date, t2);
    MemberOneLine(", \"subject\": ", f.subject, "}");
    MemberOneLine(", \"id\": ", f.id, t4);
    MemberOneLine(", \"from\": ", f.sender, t3);
    MemberOneLine(", \"date\": ", f.date, t2);
    MemberOneLine("{\"body\": ", f.body, t1);
    assert MessageJson(f)[0] == '{';
  }

  /** Lines that each read back read back as the list of what they give. */
  lemma {:induction false} ReadEachLine<T>(lines: seq<string>, read: string -> Option<T>, xs: seq<T>)
    requires |lines| == |xs| && forall i :: 0 <= i < |lines| ==> read(lines[i]) == Some(xs[i])
    ensures ReadLines(lines, read) == Some(xs)
  {
    if lines != [] {
      ReadEachLine(lines[1..], read, xs[1..]);
      assert [xs[0]] + xs[1..] == xs;
    }
  }

  lemma ReadMessageLinesLemma(fs: seq<HashedFields>)
    ensures ReadMessageLines(MessageLines(fs)) == Some(fs)
  {
    var lines := MessageLines(fs);
    forall i | 0 <= i < |lines|
      ensures ReadMessageJson(lines[i]) == Some(fs[i])
    {
      ReadMessageJsonLemma(fs[i]);
    }
    ReadEachLine(lines, ReadMessageJson, fs);
  }

  /** Splitting a join of pieces that do not contain the separator gives the pieces back. */
  lemma {:induction false} SplitJoin(parts: seq<string>, sep: char)
    requires parts != []
    requires forall i :: 0 <= i < |parts| ==> sep !in parts[i]
    ensures Split(Join([sep], parts), sep) == parts
  {
    if |parts| == 1 {
      SplitNoSep(parts[0], sep);
    } else {
      var first := parts[0];
      var rest := Join([sep], parts[1..]);
      var t := Join([sep], parts);
      assert t == first + [sep] + rest;
      forall j | 0 <= j < |first|
        ensures t[j] != sep
      {
        assert t[j] == first[j];
      }
      SplitAt(t, sep, |first|);
      assert t[..|first|] == first;
      assert t[|first| + 1..] == rest;
      SplitJoin(parts[1..], sep);
      assert [first] + parts[1..] == parts;
    }
  }

  lemma MessageLinesOneLine(fs: seq<HashedFields>)
    ensures forall i :: 0 <= i < |MessageLines(fs)| ==> '\n' !in MessageLines(fs)[i]
  {
    forall i | 0 <= i < |fs|
      ensures '\n' !in MessageLines(fs)[i]
    {
      MessageJsonOneLine(fs[i]);
    }
  }

  /** Reading back the hashed text gives exactly the fields of every message, in order. */
  lemma ReadContentTextLemma(fs: seq<HashedFields>)
    ensures ReadContentText(ContentText(fs)) == Some(fs)
  {
    if fs == [] {
    } else {
      MessageJsonOneLine(fs[0]);
      assert ContentText(fs) != [] by {
        assert MessageLines(fs)[0] == MessageJson(fs[0]);
        JoinNonEmpty(MessageLines(fs));
      }
      MessageLinesOneLine(fs);
      SplitJoin(MessageLines(fs), '\n');
      ReadMessageLinesLemma(fs);
    }
  }

  lemma JoinNonEmpty(parts: seq<string>)
    requires parts != [] && parts[0] != []
    ensures Join("\n", parts) != []
  {
  }

  /**
   * The fingerprint changes exactly when a hashed field of some message changes (or messages
   * are added, removed or reordered): equal digests mean equal id, subject, from, date and
   * body for every message, and the converse.
   */
  lemma ThreadHashExact(m1: seq<Message>, m2: seq<Message>)
    ensures ThreadHash(m1) == ThreadHash(m2) <==> AllFields(m1) == AllFields(m2)
  {
    if ThreadHash(m1) == ThreadHash(m2) {
      ReadContentTextLemma(AllFields(m1));
      ReadContentTextLemma(AllFields(m2));
    }
  }

  /** The prompt-aware fingerprint of the extension separates both the fields and the prompt. */
  lemma ThreadHashWithPromptExact(m1: seq<Message>, p1: string, m2: seq<Message>, p2: string)
    ensures ThreadHashWithPrompt(m1, p1) == ThreadHashWithPrompt(m2, p2)
        <==> AllFields(m1) == AllFields(m2) && p1 == p2
  {
    if ThreadHashWithPrompt(m1, p1) == ThreadHashWithPrompt(m2, p2) {
      var l1 := MessageLines(AllFields(m1)) + [Quoted(p1)];
      var l2 := MessageLines(AllFields(m2)) + [Quoted(p2)];
      LinesOneLine(AllFields(m1), p1);
      LinesOneLine(AllFields(m2), p2);
      SplitJoin(l1, '\n');
      SplitJoin(l2, '\n');
      assert l1 == l2;
      assert MessageLines(AllFields(m1)) == l1[..|l1| - 1];
      assert MessageLines(AllFields(m2)) == l2[..|l2| - 1];
      QuotedInjective(p1, p2);
      ReadMessageLinesLemma(AllFields(m1));
      ReadMessageLinesLemma(AllFields(m2));
    }
  }

  lemma LinesOneLine(fs: seq<HashedFields>, p: string)
    ensures forall i :: 0 <= i < |MessageLines(fs) + [Quoted(p)]| ==> '\n' !in (MessageLines(fs) + [Quoted(p)])[i]
  {
    MessageLinesOneLine(fs);
    QuotedPrintable(p);
  }
}
