/**
 * The message box (src/components/ChatInput.jsx): the list of attached
 * files, each parsed by the document processor, and the send action that
 * hands the ready ones to the chat with the text.
 *
 * `Date.now()` readings and `URL.createObjectURL` are parameters; the processor's
 * library output for each file is given with it. Each processing outcome is
 * applied in turn, as the `for … of` loop awaits them.
 */
module ChatInput {
  import opened Wrappers
  import opened Text
  import opened DocumentProcessor

  datatype Status = Parsing | Ready | Errored

  /** `data`: nothing yet, the processed document, or the error shown in place of it. */
  datatype AttachmentData = NoData | Parsed(doc: Processed) | ErrorNote(name: string, content: string)

  datatype Attachment = Attachment(id: string, file: File, status: Status, data: AttachmentData,
                                   previewUrl: Option<string>)

  /** `{ ...att.data, previewUrl: att.previewUrl }`: what the chat receives for a ready attachment. */
  datatype Outgoing = Outgoing(doc: Processed, previewUrl: Option<string>)

  /** The status and the data always agree. */
  predicate Consistent(a: Attachment) {
    (a.status == Parsing <==> a.data == NoData) &&
    (a.status == Ready <==> a.data.Parsed?) &&
    (a.status == Errored <==> a.data.ErrorNote?)
  }

  /** The entry `handleFileChange` adds for a newly selected file. */
  function NewAttachment(file: File, now: int, objectUrl: File -> string): (a: Attachment)
    ensures a.status == Parsing && a.data == NoData && a.file == file && Consistent(a)
    ensures a.previewUrl.Some? <==> GetFileType(file) == Image
  {
    Attachment(file.name + "-" + IntToString(now), file, Parsing, NoData,
               if GetFileType(file) == Image then Some(objectUrl(file)) else None)
  }

  /** A template literal's rendering of an integer. */
  function IntToString(n: int): string {
    if n < 0 then "-" + NatToString(-n) else NatToString(n)
  }

  /**
   * The entries for a selection of files, in order. The `map` callback reads
   * `Date.now()` once per file, so each file comes with its own reading.
   */
  function NewAttachments(files: seq<File>, nows: seq<int>, objectUrl: File -> string): (news: seq<Attachment>)
    requires |nows| == |files|
    ensures |news| == |files|
    ensures forall i :: 0 <= i < |files| ==> news[i].file == files[i] && news[i].status == Parsing
  {
    seq(|files|, i requires 0 <= i < |files| => NewAttachment(files[i], nows[i], objectUrl))
  }

  /**
   * Two files with the same name get the same id exactly when the clock gave
   * them the same reading: a tick during the `map` separates them.
   */
  lemma SameNameIds(f: File, g: File, m: int, n: int, objectUrl: File -> string)
    requires f.name == g.name
    ensures NewAttachment(f, m, objectUrl).id == NewAttachment(g, n, objectUrl).id <==> m == n
  {
    var a, b := IntToString(m), IntToString(n);
    var head := f.name + "-";
    if head + a == head + b {
      assert a == (head + a)[|head|..] && b == (head + b)[|head|..];
      IntToStringInjective(m, n);
    }
  }

  /** Different integers render differently: the sign shows, and the digits are injective. */
  lemma IntToStringInjective(m: int, n: int)
    requires IntToString(m) == IntToString(n)
    ensures m == n
  {
    SignShows(m);
    SignShows(n);
    if m < 0 {
      var a := IntToString(m);
      assert a[1..] == NatToString(-m) && a[1..] == NatToString(-n);
      NatToStringInjective(-m, -n);
    } else {
      NatToStringInjective(m, n);
    }
  }

  /** A rendering starts with `-` exactly for a negative integer. */
  lemma SignShows(n: int)
    ensures IntToString(n)[0] == '-' <==> n < 0
  {
    if n >= 0 {
      assert IntToString(n)[0] == NatToString(n)[0];
    }
  }

  /** The processing outcome of each file, in order. */
  function Outcomes(files: seq<File>, sources: seq<Source>): (outcomes: seq<Result<Processed>>)
    requires |sources| == |files|
    ensures |outcomes| == |files|
  {
    seq(|files|, i requires 0 <= i < |files| => ProcessResult(files[i], sources[i]))
  }

  /** The entry after its file's processing settled. */
  function Settled(a: Attachment, outcome: Result<Processed>): (r: Attachment)
    ensures Consistent(r) && r.id == a.id && r.file == a.file && r.previewUrl == a.previewUrl
  {
    match outcome
    case Success(doc) => a.(status := Ready, data := Parsed(doc))
    case Failure(message) => a.(status := Errored, data := ErrorNote(a.file.name, message))
  }

  /** `prev.map(att => att.id === id ? … : att)`. */
  function SettleId(atts: seq<Attachment>, id: string, outcome: Result<Processed>): seq<Attachment> {
    seq(|atts|, i requires 0 <= i < |atts| => if atts[i].id == id then Settled(atts[i], outcome) else atts[i])
  }

  /** The list after the outcomes of the first `|outcomes|` new entries were applied, in order. */
  function SettleAll(atts: seq<Attachment>, news: seq<Attachment>, outcomes: seq<Result<Processed>>): seq<Attachment>
    requires |outcomes| <= |news|
    decreases |outcomes|
  {
    if outcomes == [] then atts
    else
      var k := |outcomes| - 1;
      SettleId(SettleAll(atts, news, outcomes[..k]), news[k].id, outcomes[k])
  }

  /** Applying one more outcome settles the next new entry's id. */
  lemma SettleAllStep(atts: seq<Attachment>, news: seq<Attachment>, outcomes: seq<Result<Processed>>, i: nat)
    requires i < |outcomes| <= |news|
    ensures SettleAll(atts, news, outcomes[..i + 1]) == SettleId(SettleAll(atts, news, outcomes[..i]), news[i].id, outcomes[i])
  {
    assert outcomes[..i + 1][..i] == outcomes[..i];
  }

  /** `prev.filter(att => att.id !== id)`. */
  function Without(atts: seq<Attachment>, id: string): seq<Attachment>
    decreases |atts|
  {
    if atts == [] then []
    else if atts[0].id == id then Without(atts[1..], id)
    else [atts[0]] + Without(atts[1..], id)
  }

  /** The ready entries as the chat receives them, in order. */
  function ReadyOf(atts: seq<Attachment>): seq<Outgoing>
    decreases |atts|
  {
    if atts == [] then []
    else if atts[0].status == Ready && atts[0].data.Parsed? then
      [Outgoing(atts[0].data.doc, atts[0].previewUrl)] + ReadyOf(atts[1..])
    else ReadyOf(atts[1..])
  }

  /** `disabled` of the send button, and the guard of `onSendMessage`. */
  predicate SendRefused(input: string, isLoading: bool, atts: seq<Attachment>) {
    isLoading || (Trim(input) == [] && |ReadyOf(atts)| == 0)
  }

  /** The attachment list of the message box. */
  class Attachments {
    var attachments: seq<Attachment>

    /** Every entry's status matches its data. */
    predicate Valid()
      reads this
    {
      forall i :: 0 <= i < |attachments| ==> Consistent(attachments[i])
    }

    constructor ()
      ensures attachments == [] && Valid()
    {
      attachments := [];
    }

    /**
     * `handleFileChange`: one parsing entry per selected file is appended,
     * then each file's processing outcome settles the entries with its id.
     */
    method HandleFileChange(files: seq<File>, sources: seq<Source>, nows: seq<int>, objectUrl: File -> string)
      requires |sources| == |files| && |nows| == |files| && Valid()
      modifies this
      ensures Valid()
      ensures var news := NewAttachments(files, nows, objectUrl);
        attachments == SettleAll(old(attachments) + news, news, Outcomes(files, sources))
    {
      var news := NewAttachments(files, nows, objectUrl);
      ghost var outcomes := Outcomes(files, sources);
      if |files| == 0 {
        assert old(attachments) + news == old(attachments);
        return;
      }
      NewValid(attachments, files, nows, objectUrl);
      attachments := attachments + news;
      ghost var start := attachments;
      var i := 0;
      while i < |files|
        invariant 0 <= i <= |files| && Valid()
        invariant attachments == SettleAll(start, news, outcomes[..i])
      {
        SettleOne(news[i].id, files[i], sources[i]);
        SettleAllStep(start, news, outcomes, i);
        i := i + 1;
      }
      assert outcomes[..|files|] == outcomes;
    }

    /** One iteration of the loop: the file is processed and the entries with its id settled. */
    method SettleOne(id: string, file: File, source: Source)
      requires Valid()
      modifies this
      ensures attachments == SettleId(old(attachments), id, ProcessResult(file, source)) && Valid()
    {
      var result := ProcessFile(file, source);
      SettleIdValid(attachments, id, result);
      attachments := SettleId(attachments, id, result);
    }

    /** `removeAttachment(id)`. */
    method RemoveAttachment(id: string)
      requires Valid()
      modifies this
      ensures attachments == Without(old(attachments), id) && Valid()
    {
      WithoutValid(attachments, id);
      attachments := Without(attachments, id);
    }

    /**
     * `onSendMessage`: unless refused, the text and the ready attachments
     * are sent and the list is emptied.
     */
    method OnSendMessage(input: string, isLoading: bool) returns (sent: Option<(string, seq<Outgoing>)>)
      requires Valid()
      modifies this
      ensures SendRefused(input, isLoading, old(attachments)) ==> sent.None? && attachments == old(attachments)
      ensures !SendRefused(input, isLoading, old(attachments)) ==>
        sent == Some((input, ReadyOf(old(attachments)))) && attachments == []
      ensures Valid()
    {
      var ready := ReadyOf(attachments);
      if isLoading || (Trim(input) == [] && |ready| == 0) {
        return None;
      }
      sent := Some((input, ready));
      attachments := [];
    }

    /** The textarea's `onKeyDown`: Enter without Shift sends when `enterToSend` is set. */
    method HandleKeyDown(enterToSend: bool, key: string, shiftKey: bool, input: string, isLoading: bool)
      returns (sent: Option<(string, seq<Outgoing>)>)
      requires Valid()
      modifies this
      ensures !(enterToSend && key == "Enter" && !shiftKey) ==> sent.None? && attachments == old(attachments)
      ensures enterToSend && key == "Enter" && !shiftKey && !SendRefused(input, isLoading, old(attachments)) ==>
        sent == Some((input, ReadyOf(old(attachments)))) && attachments == []
      ensures enterToSend && key == "Enter" && !shiftKey && SendRefused(input, isLoading, old(attachments)) ==>
        sent.None? && attachments == old(attachments)
      ensures Valid()
    {
      sent := None;
      if enterToSend && key == "Enter" && !shiftKey {
        sent := OnSendMessage(input, isLoading);
      }
    }
  }

  // ----- properties -----

  lemma NewValid(atts: seq<Attachment>, files: seq<File>, nows: seq<int>, objectUrl: File -> string)
    requires |nows| == |files|
    requires forall i :: 0 <= i < |atts| ==> Consistent(atts[i])
    ensures var all := atts + NewAttachments(files, nows, objectUrl);
      forall i :: 0 <= i < |all| ==> Consistent(all[i])
  {
  }

  /** Settling keeps every entry consistent. */
  lemma SettleIdValid(atts: seq<Attachment>, id: string, outcome: Result<Processed>)
    requires forall i :: 0 <= i < |atts| ==> Consistent(atts[i])
    ensures forall i :: 0 <= i < |SettleId(atts, id, outcome)| ==> Consistent(SettleId(atts, id, outcome)[i])
  {
  }

  /**
   * One outcome changes exactly the entries with its id, into the ready or
   * error entry for the outcome; the others stay as they were, in place.
   */
  lemma SettleIdMeaning(atts: seq<Attachment>, id: string, outcome: Result<Processed>, i: nat)
    requires i < |atts|
    ensures |SettleId(atts, id, outcome)| == |atts|
    ensures atts[i].id != id ==> SettleId(atts, id, outcome)[i] == atts[i]
    ensures atts[i].id == id && outcome.Success? ==>
      SettleId(atts, id, outcome)[i] == atts[i].(status := Ready, data := Parsed(outcome.value))
    ensures atts[i].id == id && outcome.Failure? ==>
      SettleId(atts, id, outcome)[i] == atts[i].(status := Errored, data := ErrorNote(atts[i].file.name, outcome.error))
  {
  }

  /**
   * When the new entries have ids of their own, the old entries come
   * through the processing untouched and each new entry ends up settled by
   * its own file's outcome.
   */
  lemma {:induction false} SettleAllMeaning(old_: seq<Attachment>, news: seq<Attachment>, outcomes: seq<Result<Processed>>)
    requires |outcomes| <= |news|
    requires forall k, j :: 0 <= k < j < |news| ==> news[k].id != news[j].id
    requires forall k, i :: 0 <= k < |news| && 0 <= i < |old_| ==> news[k].id != old_[i].id
    ensures |SettleAll(old_ + news, news, outcomes)| == |old_| + |news|
    ensures forall i :: 0 <= i < |old_| ==> SettleAll(old_ + news, news, outcomes)[i] == old_[i]
    ensures forall k :: 0 <= k < |outcomes| ==> SettleAll(old_ + news, news, outcomes)[|old_| + k] == Settled(news[k], outcomes[k])
    ensures forall k :: |outcomes| <= k < |news| ==> SettleAll(old_ + news, news, outcomes)[|old_| + k] == news[k]
    decreases |outcomes|
  {
    if outcomes != [] {
      var k := |outcomes| - 1;
      SettleAllMeaning(old_, news, outcomes[..k]);
      var prev := SettleAll(old_ + news, news, outcomes[..k]);
      var next := SettleId(prev, news[k].id, outcomes[k]);
      assert next == SettleAll(old_ + news, news, outcomes);
      forall i | 0 <= i < |next| ensures next[i] == if i < |old_| then old_[i] else if i - |old_| < |outcomes| then Settled(news[i - |old_|], outcomes[i - |old_|]) else news[i - |old_|] {
        if i < |old_| {
          assert prev[i].id == old_[i].id;
        } else {
          var m := i - |old_|;
          assert prev[i].id == news[m].id;
          assert prev[i] == if m < k then Settled(news[m], outcomes[..k][m]) else news[m];
        }
      }
    }
  }

  /** `filter` keeps exactly the entries with other ids. */
  lemma {:induction false} WithoutMeaning(atts: seq<Attachment>, id: string)
    ensures forall a :: a in Without(atts, id) <==> a in atts && a.id != id
    decreases |atts|
  {
    if atts != [] {
      WithoutMeaning(atts[1..], id);
      assert atts == [atts[0]] + atts[1..];
    }
  }

  /** One entry stays exactly when its id is not `id`. */
  lemma WithoutOne(x: Attachment, id: string)
    ensures Without([x], id) == if x.id == id then [] else [x]
  {
    assert [x][1..] == [];
  }

  /**
   * `filter` works entry by entry: an entry stays exactly when its id is not
   * `id`, and the list splits at any point, so the kept entries keep their
   * order and their number.
   */
  lemma {:induction false} WithoutAppend(a: seq<Attachment>, b: seq<Attachment>, id: string)
    ensures Without(a + b, id) == Without(a, id) + Without(b, id)
    decreases |a|
  {
    if a == [] {
      assert a + b == b;
    } else {
      assert (a + b)[1..] == a[1..] + b;
      WithoutAppend(a[1..], b, id);
    }
  }

  /** Removing an id no entry has changes nothing. */
  lemma {:induction false} WithoutAbsent(atts: seq<Attachment>, id: string)
    requires forall i :: 0 <= i < |atts| ==> atts[i].id != id
    ensures Without(atts, id) == atts
    decreases |atts|
  {
    if atts != [] {
      assert atts[1..][0..] == atts[1..];
      WithoutAbsent(atts[1..], id);
    }
  }

  /** Removing entries keeps the rest consistent. */
  lemma WithoutValid(atts: seq<Attachment>, id: string)
    requires forall i :: 0 <= i < |atts| ==> Consistent(atts[i])
    ensures forall i :: 0 <= i < |Without(atts, id)| ==> Consistent(Without(atts, id)[i])
  {
    WithoutMeaning(atts, id);
    forall i | 0 <= i < |Without(atts, id)| ensures Consistent(Without(atts, id)[i]) {
      var a := Without(atts, id)[i];
      assert a in Without(atts, id);
      var j :| 0 <= j < |atts| && atts[j] == a;
    }
  }

  /** What is sent is exactly the ready entries, with their documents and previews, in order. */
  lemma {:induction false} ReadyOfMeaning(atts: seq<Attachment>)
    requires forall i :: 0 <= i < |atts| ==> Consistent(atts[i])
    ensures forall o :: o in ReadyOf(atts) <==>
      exists i :: 0 <= i < |atts| && atts[i].data.Parsed? && o == Outgoing(atts[i].data.doc, atts[i].previewUrl)
    ensures |ReadyOf(atts)| == 0 <==> forall i :: 0 <= i < |atts| ==> atts[i].status != Ready
    decreases |atts|
  {
    if atts != [] {
      var tail := atts[1..];
      assert forall i :: 0 <= i < |tail| ==> Consistent(tail[i]) by {
        forall i | 0 <= i < |tail| ensures Consistent(tail[i]) {
          assert tail[i] == atts[i + 1];
        }
      }
      ReadyOfMeaning(tail);
      assert forall i :: 1 <= i < |atts| ==> atts[i] == tail[i - 1];
      forall o ensures o in ReadyOf(atts) <==>
        exists i :: 0 <= i < |atts| && atts[i].data.Parsed? && o == Outgoing(atts[i].data.doc, atts[i].previewUrl)
      {
        if exists i :: 0 <= i < |atts| && atts[i].data.Parsed? && o == Outgoing(atts[i].data.doc, atts[i].previewUrl) {
          var i :| 0 <= i < |atts| && atts[i].data.Parsed? && o == Outgoing(atts[i].data.doc, atts[i].previewUrl);
          if i > 0 {
            assert tail[i - 1].data.Parsed? && o == Outgoing(tail[i - 1].data.doc, tail[i - 1].previewUrl);
          }
        }
        if o in ReadyOf(tail) {
          var j :| 0 <= j < |tail| && tail[j].data.Parsed? && o == Outgoing(tail[j].data.doc, tail[j].previewUrl);
          assert atts[j + 1] == tail[j];
        }
      }
    }
  }
}
