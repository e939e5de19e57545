/** client_common/protocol.cpp: the JSON messages of protocol v1, their validation, and
    what each end reads out of them. */
module Protocol {
  import opened Basics
  import opened Base64
  import opened Messages
  import opened Transfers
  import opened Bundles

  /** The library keeps non-negative integers unsigned and negative ones signed, in 64
      bits each; a floating-point number is a finite double, given by its bit pattern. */
  type UInt64 = n: int | 0 <= n < TWO_64
  type NegativeInt64 = n: int | -TWO_64 / 2 <= n < 0 witness -1
  type FiniteDouble = bits: int | 0 <= bits < TWO_64 && bits / TWO_52 % 2048 != 2047

  /** JSON values as the library distinguishes them; an object has one value per key. */
  datatype Json =
    | Null
    | Bool(b: bool)
    | Unsigned(n: UInt64)
    | Negative(value: NegativeInt64)
    | Float(bits: FiniteDouble)
    | Text(s: string)
    | Array(items: seq<Json>)
    | Object(fields: map<string, Json>)

  datatype Validation = Valid | Invalid(error: string)

  predicate Has(j: Json, key: string) {
    j.Object? && key in j.fields
  }

  predicate IsBoundedText(j: Json, key: string, maxLength: nat, allowEmpty: bool) {
    && Has(j, key) && j.fields[key].Text?
    && |j.fields[key].s| <= maxLength && (allowEmpty || j.fields[key].s != "")
  }

  predicate IsUnsigned(j: Json, key: string) {
    Has(j, key) && j.fields[key].Unsigned?
  }

  function TextOf(j: Json, key: string, otherwise: string): string {
    if Has(j, key) && j.fields[key].Text? then j.fields[key].s else otherwise
  }

  function NumberOf(j: Json, key: string): nat {
    if IsUnsigned(j, key) then j.fields[key].n else 0
  }

  datatype Kind = AuthKind | PingKind | TextKind | BundleKind | StartKind | ChunkKind | CompleteKind | OtherKind

  function KindOf(name: string): Kind {
    if name == "auth" then AuthKind
    else if name == "ping" then PingKind
    else if name == "clipboard_text" then TextKind
    else if name == "file_bundle" then BundleKind
    else if name == "file_transfer_start" then StartKind
    else if name == "file_transfer_chunk" then ChunkKind
    else if name == "file_transfer_complete" then CompleteKind
    else OtherKind
  }

  /** `validateClientMessage`. */
  function Validate(j: Json, maxPayload: nat): Validation {
    if !IsBoundedText(j, "type", 64, false) then Invalid("Missing or invalid message type")
    else
      var kind := KindOf(j.fields["type"].s);
      if kind == AuthKind then
        if IsBoundedText(j, "username", 256, false) && IsBoundedText(j, "password", 4096, false) then Valid
        else Invalid("auth requires bounded username and password strings")
      else if kind == PingKind then Valid
      else if kind == TextKind then
        if IsBoundedText(j, "content", maxPayload, true) then Valid
        else Invalid("clipboard_text requires bounded string content")
      else if kind == BundleKind then
        if Has(j, "files") && j.fields["files"].Array? && j.fields["files"].items != [] then Valid
        else Invalid("file_bundle requires a non-empty files array")
      else if kind == StartKind then
        if !(IsBoundedText(j, "transfer_id", 128, false) && IsBoundedText(j, "name", 1024, false)
             && IsUnsigned(j, "size")) then
          Invalid("file_transfer_start requires transfer_id, name and unsigned size")
        else if Has(j, "sha256") && !j.fields["sha256"].Text? then
          Invalid("file_transfer_start sha256 must be a string")
        else if Has(j, "mime") && !IsBoundedText(j, "mime", 256, true) then
          Invalid("file_transfer_start mime must be a bounded string")
        else Valid
      else if kind == ChunkKind then
        if IsBoundedText(j, "transfer_id", 128, false) && IsUnsigned(j, "seq")
           && IsBoundedText(j, "data", maxPayload, true) then Valid
        else Invalid("file_transfer_chunk requires transfer_id, unsigned seq and data")
      else if kind == CompleteKind then
        if IsBoundedText(j, "transfer_id", 128, false) then Valid
        else Invalid("file_transfer_complete requires transfer_id")
      else Invalid("Unsupported message type")
  }

  function BundleItemOf(j: Json): BundleItem {
    if !(Has(j, "name") && j.fields["name"].Text? && Has(j, "data") && j.fields["data"].Text?) then Malformed
    else Item(
        j.fields["name"].s, j.fields["data"].s,
        if !Has(j, "size") then None else if IsUnsigned(j, "size") then Some(Some(j.fields["size"].n)) else Some(None),
        if !Has(j, "sha256") then None
        else if j.fields["sha256"].Text? then Some(Some(j.fields["sha256"].s)) else Some(None))
  }

  function BundleItemsOf(items: seq<Json>): seq<BundleItem> {
    seq(|items|, i requires 0 <= i < |items| => BundleItemOf(items[i]))
  }

  /** The message the server's handlers see in a validated object. */
  function View(j: Json): Message {
    var kind := KindOf(TextOf(j, "type", ""));
    if kind == AuthKind then Auth(TextOf(j, "username", ""), TextOf(j, "password", ""))
    else if kind == TextKind then ClipboardText(TextOf(j, "content", ""))
    else if kind == BundleKind then
      FileBundle(if Has(j, "files") && j.fields["files"].Array? then BundleItemsOf(j.fields["files"].items) else [])
    else if kind == StartKind then
      TransferStart(TextOf(j, "transfer_id", ""), TextOf(j, "name", ""), NumberOf(j, "size"), TextOf(j, "sha256", ""))
    else if kind == ChunkKind then
      TransferChunk(TextOf(j, "transfer_id", ""), NumberOf(j, "seq"), TextOf(j, "data", ""))
    else if kind == CompleteKind then TransferComplete(TextOf(j, "transfer_id", ""))
    else Ping
  }

  /** What is broadcast: the message as received, with the sender filled in. */
  function Forwarded(j: Json, user: string): Json {
    if j.Object? then Object(j.fields["sender" := Text(user)]) else j
  }

  /** What the receiving client's `handleChunkTransfer` reads, with its defaults. */
  function ClientView(j: Json): Option<Message> {
    var kind, id := KindOf(TextOf(j, "type", "")), TextOf(j, "transfer_id", "");
    if id == "" then None
    else if kind == StartKind then
      Some(TransferStart(id, TextOf(j, "name", "clipboard-file"), NumberOf(j, "size"), TextOf(j, "sha256", "")))
    else if kind == ChunkKind then Some(TransferChunk(id, NumberOf(j, "seq"), TextOf(j, "data", "")))
    else if kind == CompleteKind then Some(TransferComplete(id))
    else None
  }

  lemma ForwardedReads(j: Json, user: string, key: string)
    requires key != "sender"
    ensures Has(Forwarded(j, user), key) <==> Has(j, key)
    ensures Has(j, key) ==> Forwarded(j, user).fields[key] == j.fields[key]
  {}

  /** Both ends read the same transfer message out of a relayed object: forwarding adds a
      field nobody validates, and the client's defaults never come into play. */
  lemma RelayedViewAgrees(j: Json, user: string, maxPayload: nat)
    requires Validate(j, maxPayload).Valid?
    ensures IsTransfer(View(j)) ==> ClientView(Forwarded(j, user)) == Some(View(j))
    ensures !IsTransfer(View(j)) ==> ClientView(Forwarded(j, user)) == None
  {
    ForwardedReads(j, user, "type");
    ForwardedReads(j, user, "transfer_id");
    ForwardedReads(j, user, "name");
    ForwardedReads(j, user, "size");
    ForwardedReads(j, user, "sha256");
    ForwardedReads(j, user, "seq");
    ForwardedReads(j, user, "data");
  }

  /** A string the handlers can take out: there, a string, and within the bound. */
  predicate Gives(j: Json, key: string, least: nat, most: nat) {
    j.Object? && key in j.fields && j.fields[key].Text? && least <= |j.fields[key].s| <= most
  }

  /** An optional field that, where present, is a string within the bound. */
  predicate MayGive(j: Json, key: string, most: nat) {
    j.Object? && (key in j.fields ==> Gives(j, key, 0, most))
  }

  predicate GivesNumber(j: Json, key: string) {
    j.Object? && key in j.fields && j.fields[key].Unsigned?
  }

  /** The fields a message of each kind must have. */
  predicate Complete(j: Json, t: string, maxPayload: nat)
    requires j.Object?
  {
    || (t == "auth" && Gives(j, "username", 1, 256) && Gives(j, "password", 1, 4096))
    || t == "ping"
    || (t == "clipboard_text" && Gives(j, "content", 0, maxPayload))
    || (t == "file_bundle" && "files" in j.fields && j.fields["files"].Array? && j.fields["files"].items != [])
    || (t == "file_transfer_start" && Gives(j, "transfer_id", 1, 128) && Gives(j, "name", 1, 1024)
        && GivesNumber(j, "size") && MayGive(j, "mime", 256)
        && ("sha256" in j.fields ==> j.fields["sha256"].Text?))
    || (t == "file_transfer_chunk" && Gives(j, "transfer_id", 1, 128) && GivesNumber(j, "seq")
        && Gives(j, "data", 0, maxPayload))
    || (t == "file_transfer_complete" && Gives(j, "transfer_id", 1, 128))
  }

  predicate CompleteFor(j: Json, kind: Kind, maxPayload: nat)
    requires j.Object?
  {
    match kind
    case AuthKind => Gives(j, "username", 1, 256) && Gives(j, "password", 1, 4096)
    case PingKind => true
    case TextKind => Gives(j, "content", 0, maxPayload)
    case BundleKind => "files" in j.fields && j.fields["files"].Array? && j.fields["files"].items != []
    case StartKind =>
      && Gives(j, "transfer_id", 1, 128) && Gives(j, "name", 1, 1024) && GivesNumber(j, "size")
      && MayGive(j, "mime", 256) && ("sha256" in j.fields ==> j.fields["sha256"].Text?)
    case ChunkKind => Gives(j, "transfer_id", 1, 128) && GivesNumber(j, "seq") && Gives(j, "data", 0, maxPayload)
    case CompleteKind => Gives(j, "transfer_id", 1, 128)
    case OtherKind => false
  }

  lemma TextGives(j: Json, key: string, most: nat)
    ensures IsBoundedText(j, key, most, false) <==> Gives(j, key, 1, most)
    ensures IsBoundedText(j, key, most, true) <==> Gives(j, key, 0, most)
    ensures Gives(j, key, 1, most) ==> j.Object? && key in j.fields && j.fields[key].Text?
  {}

  lemma ValidSimple(j: Json, maxPayload: nat)
    requires Gives(j, "type", 1, 64) && j.fields["type"].s != ""
    requires var kind := KindOf(j.fields["type"].s); !kind.StartKind? && !kind.ChunkKind? && !kind.CompleteKind?
    ensures Validate(j, maxPayload).Valid? <==> CompleteFor(j, KindOf(j.fields["type"].s), maxPayload)
  {
    TextGives(j, "username", 256);
    TextGives(j, "password", 4096);
    TextGives(j, "content", maxPayload);
    hide KindOf, Gives;
  }

  lemma ValidTransfer(j: Json, maxPayload: nat)
    requires Gives(j, "type", 1, 64) && j.fields["type"].s != ""
    requires var kind := KindOf(j.fields["type"].s); kind.StartKind? || kind.ChunkKind? || kind.CompleteKind?
    ensures Validate(j, maxPayload).Valid? <==> CompleteFor(j, KindOf(j.fields["type"].s), maxPayload)
  {
    TextGives(j, "type", 64);
    TextGives(j, "transfer_id", 128);
    TextGives(j, "name", 1024);
    TextGives(j, "mime", 256);
    TextGives(j, "data", maxPayload);
    hide KindOf, IsBoundedText, Gives;
  }

  lemma ValidByKind(j: Json, maxPayload: nat)
    ensures Validate(j, maxPayload).Valid?
            <==> Gives(j, "type", 1, 64) && CompleteFor(j, KindOf(j.fields["type"].s), maxPayload)
  {
    TextGives(j, "type", 64);
    if Gives(j, "type", 1, 64) {
      GivesField(j, "type", 1, 64);
      hide Validate, CompleteFor, KindOf;
      var kind := KindOf(j.fields["type"].s);
      if kind.StartKind? || kind.ChunkKind? || kind.CompleteKind? {
        ValidTransfer(j, maxPayload);
      } else {
        ValidSimple(j, maxPayload);
      }
    }
  }

  lemma CompleteByKind(j: Json, t: string, maxPayload: nat)
    requires j.Object?
    ensures CompleteFor(j, KindOf(t), maxPayload) <==> Complete(j, t, maxPayload)
  {
    KindIs(t);
    hide KindOf, Gives, MayGive, GivesNumber;
  }

  /** What validation guarantees, and asks, exactly: every field a handler takes out of the
      message is there with the type it is taken out as. */
  lemma ValidIff(j: Json, maxPayload: nat)
    ensures Validate(j, maxPayload).Valid? <==> Gives(j, "type", 1, 64) && Complete(j, j.fields["type"].s, maxPayload)
  {
    hide Validate, Complete, CompleteFor;
    ValidByKind(j, maxPayload);
    if Gives(j, "type", 1, 64) {
      CompleteByKind(j, j.fields["type"].s, maxPayload);
    }
  }

  /** Each kind has one name. */
  lemma KindIs(t: string)
    ensures KindOf(t) == AuthKind <==> t == "auth"
    ensures KindOf(t) == PingKind <==> t == "ping"
    ensures KindOf(t) == TextKind <==> t == "clipboard_text"
    ensures KindOf(t) == BundleKind <==> t == "file_bundle"
    ensures KindOf(t) == StartKind <==> t == "file_transfer_start"
    ensures KindOf(t) == ChunkKind <==> t == "file_transfer_chunk"
    ensures KindOf(t) == CompleteKind <==> t == "file_transfer_complete"
  {
    KindNames();
    OtherKindNames();
  }

  lemma ForwardedGives(j: Json, user: string, key: string, least: nat, most: nat)
    requires key != "sender" && j.Object?
    ensures Forwarded(j, user).Object?
    ensures key in Forwarded(j, user).fields <==> key in j.fields
    ensures key in j.fields ==> Forwarded(j, user).fields[key] == j.fields[key]
    ensures Gives(Forwarded(j, user), key, least, most) <==> Gives(j, key, least, most)
    ensures MayGive(Forwarded(j, user), key, most) <==> MayGive(j, key, most)
    ensures GivesNumber(Forwarded(j, user), key) <==> GivesNumber(j, key)
  {}

  lemma ForwardedComplete(j: Json, user: string, t: string, maxPayload: nat)
    requires j.Object?
    ensures Forwarded(j, user).Object? && (Complete(Forwarded(j, user), t, maxPayload) <==> Complete(j, t, maxPayload))
  {
    ForwardedGives(j, user, "username", 1, 256);
    ForwardedGives(j, user, "password", 1, 4096);
    ForwardedGives(j, user, "content", 0, maxPayload);
    ForwardedGives(j, user, "files", 0, 0);
    ForwardedGives(j, user, "transfer_id", 1, 128);
    ForwardedGives(j, user, "name", 1, 1024);
    ForwardedGives(j, user, "size", 0, 0);
    ForwardedGives(j, user, "mime", 0, 256);
    ForwardedGives(j, user, "sha256", 0, 0);
    ForwardedGives(j, user, "seq", 0, 0);
    ForwardedGives(j, user, "data", 0, maxPayload);
    hide Forwarded, Gives, MayGive, GivesNumber;
  }

  /** Filling in the sender leaves a message as valid as it was. */
  lemma ForwardedValid(j: Json, user: string, maxPayload: nat)
    ensures Validate(Forwarded(j, user), maxPayload).Valid? <==> Validate(j, maxPayload).Valid?
  {
    if j.Object? {
      ForwardedGives(j, user, "type", 1, 64);
      ValidIff(j, maxPayload);
      ValidIff(Forwarded(j, user), maxPayload);
      hide Validate, Forwarded, Complete, Gives;
      if Gives(j, "type", 1, 64) {
        GivesField(j, "type", 1, 64);
        ForwardedComplete(j, user, j.fields["type"].s, maxPayload);
      }
    }
  }

  lemma GivesField(j: Json, key: string, least: nat, most: nat)
    requires Gives(j, key, least, most)
    ensures j.Object? && key in j.fields && j.fields[key].Text?
  {}

  function MakeTransferStart(id: string, name: string, size: UInt64, sha256: string, mime: string): Json {
    var fields := map["type" := Text("file_transfer_start"), "transfer_id" := Text(id), "name" := Text(name),
                      "size" := Unsigned(size), "sha256" := Text(sha256)];
    Object(if mime != "" then fields["mime" := Text(mime)] else fields)
  }

  function MakeTransferChunk(id: string, sequence: UInt64, data: string): Json {
    Object(map["type" := Text("file_transfer_chunk"), "transfer_id" := Text(id), "seq" := Unsigned(sequence),
               "data" := Text(data)])
  }

  function MakeTransferComplete(id: string): Json {
    Object(map["type" := Text("file_transfer_complete"), "transfer_id" := Text(id)])
  }

  lemma KindNames()
    ensures KindOf("file_transfer_start") == StartKind && |"file_transfer_start"| == 19
    ensures KindOf("file_transfer_chunk") == ChunkKind && |"file_transfer_chunk"| == 19
    ensures KindOf("file_transfer_complete") == CompleteKind && |"file_transfer_complete"| == 22
  {
    var start, chunk, complete := "file_transfer_start", "file_transfer_chunk", "file_transfer_complete";
    assert start[14] == 's' && chunk[14] == 'c' && |complete| == 22;
    assert |start| == 19 && |chunk| == 19;
  }

  /** A built message passes validation exactly within the bounds, and reads back as what
      it was built from. */
  lemma StartValid(id: string, name: string, size: UInt64, sha256: string, mime: string, maxPayload: nat)
    ensures Validate(MakeTransferStart(id, name, size, sha256, mime), maxPayload).Valid?
            <==> 0 < |id| <= 128 && 0 < |name| <= 1024 && |mime| <= 256
    ensures View(MakeTransferStart(id, name, size, sha256, mime)) == TransferStart(id, name, size, sha256)
  {
    KindNames();
    StartFields(id, name, size, sha256, mime);
    StartReads(MakeTransferStart(id, name, size, sha256, mime), id, name, size, sha256, mime, maxPayload);
  }

  lemma StartFields(id: string, name: string, size: UInt64, sha256: string, mime: string)
    ensures var j := MakeTransferStart(id, name, size, sha256, mime);
            && Has(j, "type") && j.fields["type"] == Text("file_transfer_start")
            && Has(j, "transfer_id") && j.fields["transfer_id"] == Text(id)
            && Has(j, "name") && j.fields["name"] == Text(name)
            && Has(j, "size") && j.fields["size"] == Unsigned(size)
            && Has(j, "sha256") && j.fields["sha256"] == Text(sha256)
            && (Has(j, "mime") <==> mime != "") && (mime != "" ==> j.fields["mime"] == Text(mime))
  {
    var keys := ["type", "transfer_id", "name", "size", "sha256", "mime"];
    assert |keys[0]| == 4 && |keys[1]| == 11 && |keys[2]| == 4 && |keys[3]| == 4 && |keys[4]| == 6 && |keys[5]| == 4;
    assert keys[0][0] == 't' && keys[2][0] == 'n' && keys[3][0] == 's' && keys[5][0] == 'm';
  }

  lemma StartReads(j: Json, id: string, name: string, size: UInt64, sha256: string, mime: string, maxPayload: nat)
    requires Has(j, "type") && j.fields["type"].Text? && KindOf(j.fields["type"].s) == StartKind
    requires 0 < |j.fields["type"].s| <= 64
    requires Has(j, "transfer_id") && j.fields["transfer_id"] == Text(id)
    requires Has(j, "name") && j.fields["name"] == Text(name)
    requires Has(j, "size") && j.fields["size"] == Unsigned(size)
    requires Has(j, "sha256") && j.fields["sha256"] == Text(sha256)
    requires (Has(j, "mime") <==> mime != "") && (mime != "" ==> j.fields["mime"] == Text(mime))
    ensures Validate(j, maxPayload).Valid? <==> 0 < |id| <= 128 && 0 < |name| <= 1024 && |mime| <= 256
    ensures View(j) == TransferStart(id, name, size, sha256)
  {
    hide KindOf, BundleItemsOf;
  }

  lemma ChunkValid(id: string, sequence: UInt64, data: string, maxPayload: nat)
    ensures Validate(MakeTransferChunk(id, sequence, data), maxPayload).Valid?
            <==> 0 < |id| <= 128 && |data| <= maxPayload
    ensures View(MakeTransferChunk(id, sequence, data)) == TransferChunk(id, sequence, data)
  {
    KindNames();
    ChunkFields(id, sequence, data);
    ChunkReads(MakeTransferChunk(id, sequence, data), id, sequence, data, maxPayload);
  }

  lemma ChunkFields(id: string, sequence: UInt64, data: string)
    ensures var j := MakeTransferChunk(id, sequence, data);
            && Has(j, "type") && j.fields["type"] == Text("file_transfer_chunk")
            && Has(j, "transfer_id") && j.fields["transfer_id"] == Text(id)
            && Has(j, "seq") && j.fields["seq"] == Unsigned(sequence)
            && Has(j, "data") && j.fields["data"] == Text(data)
  {
    var keys := ["type", "transfer_id", "seq", "data"];
    assert |keys[0]| == 4 && |keys[1]| == 11 && |keys[2]| == 3 && |keys[3]| == 4;
    assert keys[0][0] == 't' && keys[3][0] == 'd';
  }

  lemma ChunkReads(j: Json, id: string, sequence: UInt64, data: string, maxPayload: nat)
    requires Has(j, "type") && j.fields["type"].Text? && KindOf(j.fields["type"].s) == ChunkKind
    requires 0 < |j.fields["type"].s| <= 64
    requires Has(j, "transfer_id") && j.fields["transfer_id"] == Text(id)
    requires Has(j, "seq") && j.fields["seq"] == Unsigned(sequence)
    requires Has(j, "data") && j.fields["data"] == Text(data)
    ensures Validate(j, maxPayload).Valid? <==> 0 < |id| <= 128 && |data| <= maxPayload
    ensures View(j) == TransferChunk(id, sequence, data)
  {}

  lemma CompleteValid(id: string, maxPayload: nat)
    ensures Validate(MakeTransferComplete(id), maxPayload).Valid? <==> 0 < |id| <= 128
    ensures View(MakeTransferComplete(id)) == TransferComplete(id)
  {
    KindNames();
    var j := MakeTransferComplete(id);
    assert |"type"| == 4 && |"transfer_id"| == 11;
    assert j.fields["type"] == Text("file_transfer_complete") && j.fields["transfer_id"] == Text(id);
  }

  /* ------------------------------------------------------------- what a client sends otherwise */

  function MakeAuth(username: string, password: string): Json {
    Object(map["type" := Text("auth"), "username" := Text(username), "password" := Text(password)])
  }

  function MakeClipboardText(content: string): Json {
    Object(map["type" := Text("clipboard_text"), "content" := Text(content)])
  }

  function MakePing(): Json {
    Object(map["type" := Text("ping")])
  }

  function MakeBundleItem(name: string, size: UInt64, sha256: string, data: string): Json {
    Object(map["name" := Text(name), "size" := Unsigned(size), "sha256" := Text(sha256), "data" := Text(data)])
  }

  function MakeFileBundle(files: seq<Json>): Json {
    Object(map["type" := Text("file_bundle"), "files" := Array(files)])
  }

  lemma OtherKindNames()
    ensures KindOf("auth") == AuthKind && |"auth"| == 4
    ensures KindOf("ping") == PingKind && |"ping"| == 4
    ensures KindOf("clipboard_text") == TextKind && |"clipboard_text"| == 14
    ensures KindOf("file_bundle") == BundleKind && |"file_bundle"| == 11
  {
    assert "auth"[0] == 'a' && "ping"[0] == 'p' && |"clipboard_text"| == 14 && |"file_bundle"| == 11;
  }

  /** User name and password arrive as what they are, exactly within the bounds. */
  lemma AuthValid(username: string, password: string, maxPayload: nat)
    ensures Validate(MakeAuth(username, password), maxPayload).Valid?
            <==> 0 < |username| <= 256 && 0 < |password| <= 4096
    ensures View(MakeAuth(username, password)) == Auth(username, password)
  {
    OtherKindNames();
    var j := MakeAuth(username, password);
    assert |"type"| == 4 && |"username"| == 8 && |"password"| == 8 && "username"[0] == 'u' && "password"[0] == 'p';
    assert j.fields["type"] == Text("auth");
    assert j.fields["username"] == Text(username) && j.fields["password"] == Text(password);
    hide KindOf, MakeAuth;
  }

  lemma ClipboardTextValid(content: string, maxPayload: nat)
    ensures Validate(MakeClipboardText(content), maxPayload).Valid? <==> |content| <= maxPayload
    ensures View(MakeClipboardText(content)) == ClipboardText(content)
  {
    OtherKindNames();
    var j := MakeClipboardText(content);
    assert |"type"| == 4 && |"content"| == 7;
    assert j.fields["type"] == Text("clipboard_text") && j.fields["content"] == Text(content);
    hide KindOf, MakeClipboardText;
  }

  lemma PingValid(maxPayload: nat)
    ensures Validate(MakePing(), maxPayload).Valid? && View(MakePing()) == Ping
  {
    OtherKindNames();
  }

  /** A bundle is valid exactly when it has entries, and each entry reads back as built. */
  lemma FileBundleValid(files: seq<Json>, maxPayload: nat)
    ensures Validate(MakeFileBundle(files), maxPayload).Valid? <==> files != []
    ensures View(MakeFileBundle(files)) == FileBundle(BundleItemsOf(files))
  {
    OtherKindNames();
    var j := MakeFileBundle(files);
    assert |"type"| == 4 && |"files"| == 5;
    assert j.fields["type"] == Text("file_bundle") && j.fields["files"] == Array(files);
    hide KindOf, MakeFileBundle;
  }

  lemma BundleItemReads(name: string, size: UInt64, sha256: string, data: string)
    ensures BundleItemOf(MakeBundleItem(name, size, sha256, data))
         == Item(name, data, Some(Some(size)), Some(Some(sha256)))
  {
    var j := MakeBundleItem(name, size, sha256, data);
    var keys := ["name", "size", "sha256", "data"];
    assert keys[0][0] == 'n' && |keys[2]| == 6 && keys[3][0] == 'd' && keys[1][0] == 's' && |keys[1]| == 4;
    assert j.fields["name"] == Text(name) && j.fields["size"] == Unsigned(size);
    assert j.fields["sha256"] == Text(sha256) && j.fields["data"] == Text(data);
  }
}
