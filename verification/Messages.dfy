/** core/io/telegram_bridge.py: inbound messages and how a batch of them becomes one prompt. */
module Messages {

  import opened Text

  datatype Message = Message(text: string, attachments: seq<string>, voice: bool)

  type Batch = seq<Message>

  const SEPARATOR := "\n\n"

  /** `[p.text for p in parts if p.text]` */
  function Texts(parts: Batch): seq<string> {
    if parts == [] then []
    else Texts(parts[..|parts| - 1]) + (if parts[|parts| - 1].text == "" then [] else [parts[|parts| - 1].text])
  }

  function MergedText(parts: Batch): string { Join(SEPARATOR, Texts(parts)) }

  function MergedAttachments(parts: Batch): seq<string> {
    if parts == [] then [] else MergedAttachments(parts[..|parts| - 1]) + parts[|parts| - 1].attachments
  }

  predicate MergedVoice(parts: Batch) { exists i :: 0 <= i < |parts| && parts[i].voice }

  /** A batch with neither text nor attachments is dropped instead of dispatched. */
  predicate Blank(parts: Batch) { MergedText(parts) == "" && MergedAttachments(parts) == [] }

  /** Two prompts one after the other. */
  function Glue(a: string, b: string): string {
    if a == "" then b else if b == "" then a else a + SEPARATOR + b
  }

  lemma {:induction false} TextsSplit(a: Batch, b: Batch)
    ensures Texts(a + b) == Texts(a) + Texts(b)
  {
    if b == [] {
      assert a + b == a;
    } else {
      TextsSplit(a, b[..|b| - 1]);
      assert (a + b)[..|a + b| - 1] == a + b[..|b| - 1];
    }
  }

  lemma {:induction false} TextsNonEmpty(parts: Batch)
    ensures forall i :: 0 <= i < |Texts(parts)| ==> Texts(parts)[i] != ""
  {
    if parts != [] { TextsNonEmpty(parts[..|parts| - 1]); }
  }

  lemma JoinEmpty(ys: seq<string>)
    requires forall i :: 0 <= i < |ys| ==> ys[i] != ""
    ensures Join(SEPARATOR, ys) == "" <==> ys == []
  {
  }

  lemma {:induction false} JoinSplit(xs: seq<string>, ys: seq<string>)
    requires forall i :: 0 <= i < |xs| ==> xs[i] != ""
    requires forall i :: 0 <= i < |ys| ==> ys[i] != ""
    ensures Join(SEPARATOR, xs + ys) == Glue(Join(SEPARATOR, xs), Join(SEPARATOR, ys))
  {
    JoinEmpty(xs);
    JoinEmpty(ys);
    if ys == [] {
      assert xs + ys == xs;
    } else {
      var n := |ys| - 1;
      JoinSplit(xs, ys[..n]);
      JoinEmpty(ys[..n]);
      assert (xs + ys)[..|xs + ys| - 1] == xs + ys[..n];
      if xs == [] { assert xs + ys == ys; }
      else if n == 0 { assert xs + ys[..n] == xs; }
      else {
        assert Join(SEPARATOR, xs) + SEPARATOR + Join(SEPARATOR, ys[..n]) + SEPARATOR + ys[n]
            == Join(SEPARATOR, xs) + SEPARATOR + (Join(SEPARATOR, ys[..n]) + SEPARATOR + ys[n]);
      }
    }
  }

  lemma {:induction false} AttachmentsSplit(a: Batch, b: Batch)
    ensures MergedAttachments(a + b) == MergedAttachments(a) + MergedAttachments(b)
  {
    if b == [] {
      assert a + b == a;
    } else {
      var n := |b| - 1;
      AttachmentsSplit(a, b[..n]);
      assert (a + b)[..|a + b| - 1] == a + b[..n] && (a + b)[|a + b| - 1] == b[n];
      assert MergedAttachments(a) + MergedAttachments(b[..n]) + b[n].attachments ==
          MergedAttachments(a) + (MergedAttachments(b[..n]) + b[n].attachments);
    }
  }

  /** Folding follow-ups into a batch: the old text, a blank line, the new texts; attachments
      concatenate; a voice note anywhere keeps the voice reply; nothing dispatched becomes blank. */
  lemma MergeExtends(base: Batch, more: Batch)
    ensures MergedText(base + more) == Glue(MergedText(base), MergedText(more))
    ensures MergedAttachments(base + more) == MergedAttachments(base) + MergedAttachments(more)
    ensures MergedVoice(base + more) <==> MergedVoice(base) || MergedVoice(more)
    ensures Blank(base + more) <==> Blank(base) && Blank(more)
  {
    TextsSplit(base, more);
    TextsNonEmpty(base);
    TextsNonEmpty(more);
    JoinSplit(Texts(base), Texts(more));
    JoinEmpty(Texts(base));
    JoinEmpty(Texts(more));
    AttachmentsSplit(base, more);
    var all := base + more;
    forall i | 0 <= i < |base| ensures all[i] == base[i] { }
    forall i | 0 <= i < |more| ensures all[|base| + i] == more[i] { }
  }

  /** A single message is dispatched as it is, and nothing as nothing; with MergeExtends this fixes the
      prompt, the attachments and the voice flag of every batch. */
  lemma SingleMessage(m: Message)
    ensures MergedText([m]) == m.text && MergedAttachments([m]) == m.attachments && (MergedVoice([m]) <==> m.voice)
    ensures MergedText([]) == "" && MergedAttachments([]) == [] && !MergedVoice([])
  {
    assert [m][..0] == [];
    assert Texts([m]) == (if m.text != "" then [m.text] else []);
    if m.text != "" { JoinLaws(SEPARATOR, [], [], m.text); }
  }

  /** Only a batch in which every message is empty is dropped. */
  lemma {:induction false} BlankIff(parts: Batch)
    ensures Blank(parts) <==> forall i :: 0 <= i < |parts| ==> parts[i].text == "" && parts[i].attachments == []
  {
    if parts == [] {
      assert Texts([]) == [];
    } else {
      var n := |parts| - 1;
      assert parts == parts[..n] + [parts[n]];
      BlankIff(parts[..n]);
      SingleMessage(parts[n]);
      MergeExtends(parts[..n], [parts[n]]);
    }
  }

  /** Two prompts are glued by a blank line, unless one of them is empty. */
  lemma GlueIs(a: string, b: string)
    ensures Glue(a, b) == if a == "" then b else if b == "" then a else a + "\n\n" + b
  {
  }

  /** The three comprehensions at the head of `_supervise_dispatch`. */
  method Merge(parts: Batch) returns (text: string, attachments: seq<string>, voice: bool)
    ensures text == MergedText(parts)
    ensures attachments == MergedAttachments(parts)
    ensures voice == MergedVoice(parts)
  {
    text, attachments, voice := "", [], false;
    for i := 0 to |parts|
      invariant text == MergedText(parts[..i])
      invariant attachments == MergedAttachments(parts[..i])
      invariant voice == MergedVoice(parts[..i])
    {
      assert parts[..i + 1] == parts[..i] + [parts[i]];
      MergeExtends(parts[..i], [parts[i]]);
      assert Texts([parts[i]]) == if parts[i].text == "" then [] else [parts[i].text];
      assert MergedVoice([parts[i]]) == parts[i].voice by {
        if parts[i].voice { assert [parts[i]][0].voice; }
      }
      var p := parts[i];
      if p.text != "" { text := if text == "" then p.text else text + SEPARATOR + p.text; }
      attachments := attachments + p.attachments;
      voice := voice || p.voice;
    }
    assert parts[..|parts|] == parts;
  }
}
