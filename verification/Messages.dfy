/** The validated client messages of protocol v1, and what a sequence of them says about
    one transfer. Server and receiver are both compared with this reading. */
module Messages {
  import opened Basics
  import opened Base64

  datatype Message =
    | Auth(username: string, password: string)
    | Ping
    | ClipboardText(content: string)
    | FileBundle(files: seq<BundleItem>)
    | TransferStart(id: string, name: string, size: nat, sha256: string)
    | TransferChunk(id: string, seqNo: nat, data: string)
    | TransferComplete(id: string)

  /** One entry of a bundle: `Malformed` lacks a string name or data; the optional checks
      are a declared size (`Some(None)` when it is not an unsigned number) and hash. */
  datatype BundleItem =
    | Malformed
    | Item(name: string, data: string, size: Option<Option<nat>>, sha256: Option<Option<string>>)

  predicate IsTransfer(m: Message) {
    m.TransferStart? || m.TransferChunk? || m.TransferComplete?
  }

  predicate About(m: Message, id: string) {
    IsTransfer(m) && m.id == id
  }

  /** The latest opening of a transfer and what has been appended to it since. */
  datatype Progress = Progress(opening: Option<Message>, chunks: nat, bytes: seq<byte>)

  ghost function Decoded(data: string): seq<byte> {
    var d := Decode(data);
    if d.Some? then d.value else []
  }

  ghost function Advance(p: Progress, m: Message, id: string): Progress {
    if !About(m, id) then p
    else match m
      case TransferStart(_, _, _, _) => Progress(Some(m), 0, [])
      case TransferChunk(_, _, data) => p.(chunks := p.chunks + 1, bytes := p.bytes + Decoded(data))
      case _ => p
  }

  ghost function Track(log: seq<Message>, id: string): Progress {
    if log == [] then Progress(None, 0, []) else Advance(Track(log[..|log| - 1], id), log[|log| - 1], id)
  }

  /** Where the latest opening stands in the log. */
  function StartIndex(log: seq<Message>, id: string): Option<nat> {
    if log == [] then None
    else
      var m := log[|log| - 1];
      if m.TransferStart? && m.id == id then Some(|log| - 1) else StartIndex(log[..|log| - 1], id)
  }

  lemma TrackSnoc(log: seq<Message>, m: Message, id: string)
    ensures Track(log + [m], id) == Advance(Track(log, id), m, id)
    ensures StartIndex(log + [m], id)
            == if m.TransferStart? && m.id == id then Some(|log|) else StartIndex(log, id)
  {
    assert (log + [m])[..|log|] == log;
  }

  lemma {:induction false} StartIndexPoints(log: seq<Message>, id: string)
    ensures var i := StartIndex(log, id);
            i.Some? ==> i.value < |log| && log[i.value].TransferStart? && log[i.value].id == id
                        && Track(log, id).opening == Some(log[i.value])
    ensures StartIndex(log, id).None? <==> Track(log, id).opening.None?
  {
    if log != [] {
      var init, m := log[..|log| - 1], log[|log| - 1];
      StartIndexPoints(init, id);
      assert log == init + [m];
      TrackSnoc(init, m, id);
    }
  }

  /** The messages about one transfer, in order. */
  function Only(log: seq<Message>, id: string): seq<Message> {
    if log == [] then []
    else
      var m := log[|log| - 1];
      Only(log[..|log| - 1], id) + (if About(m, id) then [m] else [])
  }

  lemma OnlySnoc(log: seq<Message>, m: Message, id: string)
    ensures Only(log + [m], id) == Only(log, id) + (if About(m, id) then [m] else [])
  {
    assert (log + [m])[..|log|] == log;
  }

  /** A transfer's progress depends on the messages about it alone. */
  lemma {:induction false} TrackOnly(log: seq<Message>, id: string)
    ensures Track(Only(log, id), id) == Track(log, id)
  {
    if log != [] {
      var init, m := log[..|log| - 1], log[|log| - 1];
      TrackOnly(init, id);
      assert log == init + [m];
      TrackSnoc(init, m, id);
      OnlySnoc(init, m, id);
      if About(m, id) {
        TrackSnoc(Only(init, id), m, id);
      } else {
        assert Only(log, id) == Only(init, id);
      }
    }
  }

  /** Once a log contains an opening, what came before that log is irrelevant. */
  lemma {:induction false} TrackSuffix(before: seq<Message>, log: seq<Message>, id: string)
    requires StartIndex(log, id).Some?
    ensures Track(before + log, id) == Track(log, id)
    ensures StartIndex(before + log, id) == Some(|before| + StartIndex(log, id).value)
  {
    var init, m := log[..|log| - 1], log[|log| - 1];
    assert log == init + [m];
    Assoc(before, init, [m]);
    TrackSnoc(before + init, m, id);
    TrackSnoc(init, m, id);
    if !(m.TransferStart? && m.id == id) {
      TrackSuffix(before, init, id);
    }
  }
}
