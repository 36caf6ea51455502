/** Message payloads as both services and the browser see them. */
module Messages {
  import opened Ordering

  type FileId = string
  type Login = string

  type Bytes = seq<int>

  /** buildObjectKey: the upload date, the file id and the extension. */
  datatype ObjectKey = ObjectKey(year: int, month: int, day: int, id: FileId, extension: string)

  /** The name and the type under which the file service keeps a file. */
  datatype FileInfo = FileInfo(filename: string, mime: string)

  const MAX_INT4 := 0x7FFF_FFFF
  const KIND_TEXT := "text"
  const KIND_FILE := "file"
  const KIND_IMAGE := "image"

  datatype Attachment = Attachment(fileId: FileId, filename: string, mime: string, size: int, kind: string,
                                   contentUrl: string, downloadUrl: string)

  /** `createdAt` counts microseconds, the resolution of a timestamptz column. */
  datatype Message = Message(id: int, chatId: int, sender: Login, kind: string, content: string,
                             attachments: seq<Attachment>, createdAt: int)

  /** The order of the server's keyset query. */
  function ServerKey(m: Message): Key {
    Key(m.createdAt, m.id)
  }

  /** The order of the browser, whose clock value has only milliseconds. */
  function ClientKey(m: Message): Key {
    Key(m.createdAt / 1000, m.id)
  }

  /** The server orders by time and then id ... */
  lemma ServerOrder(a: Message, b: Message)
    ensures Less(ServerKey(a), ServerKey(b)) <==>
            a.createdAt < b.createdAt || (a.createdAt == b.createdAt && a.id < b.id)
  {
  }

  /** ... and the browser by the millisecond and then id. */
  lemma ClientOrder(a: Message, b: Message)
    ensures Less(ClientKey(a), ClientKey(b)) <==>
            a.createdAt / 1000 < b.createdAt / 1000 || (a.createdAt / 1000 == b.createdAt / 1000 && a.id < b.id)
  {
  }

  /** What enrichMessagePayload does to one attachment. */
  function EnrichAttachment(a: Attachment): Attachment {
    a.(contentUrl := "/files/" + a.fileId + "/content", downloadUrl := "/files/" + a.fileId + "/download")
  }

  function Enrich(m: Message): Message {
    var kind := if m.kind == "" then KIND_TEXT else m.kind;
    m.(kind := kind,
       content := if kind == KIND_FILE then "" else m.content,
       attachments := seq(|m.attachments|, i requires 0 <= i < |m.attachments| => EnrichAttachment(m.attachments[i])))
  }

  /** An enriched message: the content of a file message is empty, a missing kind is text,
      every attachment has the two links made of its file id, and nothing else changes. */
  lemma EnrichedFields(m: Message)
    ensures var e := Enrich(m);
            && e.id == m.id && e.chatId == m.chatId && e.sender == m.sender && e.createdAt == m.createdAt
            && e.kind == (if m.kind == "" then "text" else m.kind)
            && e.content == (if m.kind == "file" then "" else m.content)
            && |e.attachments| == |m.attachments|
            && forall i :: 0 <= i < |m.attachments| ==>
                 && e.attachments[i].contentUrl == "/files/" + m.attachments[i].fileId + "/content"
                 && e.attachments[i].downloadUrl == "/files/" + m.attachments[i].fileId + "/download"
                 && e.attachments[i].fileId == m.attachments[i].fileId
                 && e.attachments[i].filename == m.attachments[i].filename
                 && e.attachments[i].mime == m.attachments[i].mime && e.attachments[i].size == m.attachments[i].size
                 && e.attachments[i].kind == m.attachments[i].kind
  {
  }

  function EnrichAll(s: seq<Message>): seq<Message> {
    seq(|s|, i requires 0 <= i < |s| => Enrich(s[i]))
  }

  /** Enrichment in place: a loop over the attachment slice, as in the source. */
  method EnrichMessagePayload(m: Message) returns (r: Message)
    ensures r == Enrich(m)
  {
    r := m;
    if r.kind == "" {
      r := r.(kind := KIND_TEXT);
    }
    if r.kind == KIND_FILE {
      r := r.(content := "");
    }
    ghost var before := r;
    for i := 0 to |r.attachments|
      invariant r == before.(attachments := r.attachments)
      invariant |r.attachments| == |m.attachments|
      invariant forall k :: 0 <= k < i ==> r.attachments[k] == EnrichAttachment(m.attachments[k])
      invariant forall k :: i <= k < |m.attachments| ==> r.attachments[k] == m.attachments[k]
    {
      var a := r.attachments[i];
      r := r.(attachments := r.attachments[i := a.(contentUrl := "/files/" + a.fileId + "/content",
                                                  downloadUrl := "/files/" + a.fileId + "/download")]);
    }
    assert r.attachments == Enrich(m).attachments;
  }

  /** unicode.ToLower as far as its results are ASCII: two letters beyond ASCII have such
      a lower case. Other letters are left as they are. */
  function LowerChar(c: char): char {
    if 'A' <= c <= 'Z' then ((c as int) + 32) as char
    else if c == '\U{0130}' then 'i'
    else if c == '\U{212A}' then 'k'
    else c
  }

  function ToLower(s: string): string {
    seq(|s|, i requires 0 <= i < |s| => LowerChar(s[i]))
  }

  /** The two attachment kinds the table admits are already lower case. */
  lemma KindsAreLowerCase(kind: string)
    requires kind == KIND_FILE || kind == KIND_IMAGE
    ensures ToLower(kind) == kind
  {
  }

  /** The white space of strings.TrimSpace. */
  predicate IsSpace(c: char) {
    || '\t' <= c <= '\r' || c == ' ' || c == '\U{0085}' || c == '\U{00A0}' || c == '\U{1680}'
    || '\U{2000}' <= c <= '\U{200A}' || c == '\U{2028}' || c == '\U{2029}' || c == '\U{202F}'
    || c == '\U{205F}' || c == '\U{3000}'
  }

  /** strings.TrimSpace matters to detectAttachmentKind only on the left. */
  function TrimLeft(s: string): string {
    if s != "" && IsSpace(s[0]) then TrimLeft(s[1..]) else s
  }

  function DetectAttachmentKind(mime: string): (kind: string)
    ensures kind == KIND_FILE || kind == KIND_IMAGE
  {
    if "image/" <= ToLower(TrimLeft(mime)) then KIND_IMAGE else KIND_FILE
  }

  /** The blanks in front of a string and what follows them. */
  lemma {:induction false} TrimLeftSplits(s: string) returns (blanks: string)
    ensures s == blanks + TrimLeft(s) && forall c :: c in blanks ==> IsSpace(c)
    ensures TrimLeft(s) == "" || !IsSpace(TrimLeft(s)[0])
  {
    if s != "" && IsSpace(s[0]) {
      var rest := TrimLeftSplits(s[1..]);
      blanks := [s[0]] + rest;
      assert s == [s[0]] + s[1..];
    } else {
      blanks := "";
    }
  }

  lemma {:induction false} TrimLeftOf(blanks: string, s: string)
    requires forall c :: c in blanks ==> IsSpace(c)
    requires s == "" || !IsSpace(s[0])
    ensures TrimLeft(blanks + s) == s
  {
    if blanks == "" {
      assert blanks + s == s;
    } else {
      assert (blanks + s)[1..] == blanks[1..] + s;
      TrimLeftOf(blanks[1..], s);
    }
  }

  /** The code points of Unicode's white space. */
  const WHITE_SPACE: set<int> := {
    0x9, 0xA, 0xB, 0xC, 0xD, 0x20, 0x85, 0xA0, 0x1680, 0x2000, 0x2001, 0x2002, 0x2003, 0x2004, 0x2005, 0x2006,
    0x2007, 0x2008, 0x2009, 0x200A, 0x2028, 0x2029, 0x202F, 0x205F, 0x3000
  }

  /** image/ in any letter case; the dotted capital I has a small i as its lower case. */
  predicate SpellsImage(s: string) {
    && |s| == 6 && s[0] in "iI\U{0130}" && s[1] in "mM" && s[2] in "aA" && s[3] in "gG" && s[4] in "eE" && s[5] == '/'
  }

  lemma SpellsLower(s: string)
    ensures SpellsImage(s) <==> ToLower(s) == "image/"
  {
    if ToLower(s) == "image/" {
      assert forall i :: 0 <= i < |s| ==> LowerChar(s[i]) == ToLower(s)[i];
    }
  }

  lemma SpaceIsWhite(c: char)
    ensures IsSpace(c) <==> (c as int) in WHITE_SPACE
  {
  }

  /** `mime` is blanks, then image/ in any letter case, then anything. */
  ghost predicate NamesImage(mime: string) {
    exists blanks, prefix, rest :: IsImageType(mime, blanks, prefix, rest)
  }

  predicate IsImageType(mime: string, blanks: string, prefix: string, rest: string) {
    && mime == blanks + prefix + rest && SpellsImage(prefix)
    && forall c :: c in blanks ==> (c as int) in WHITE_SPACE
  }

  /** Exactly the image types are recognised, in any letter case and with any blanks in front. */
  lemma ImagesAreRecognised(mime: string)
    ensures DetectAttachmentKind(mime) == "image" <==> NamesImage(mime)
    ensures DetectAttachmentKind(mime) == "file" <==> !NamesImage(mime)
  {
    forall c { SpaceIsWhite(c); }
    if DetectAttachmentKind(mime) == KIND_IMAGE {
      var blanks := TrimLeftSplits(mime);
      var trimmed := TrimLeft(mime);
      assert ToLower(trimmed[..6]) == ToLower(trimmed)[..6];
      SpellsLower(trimmed[..6]);
      assert mime == blanks + trimmed[..6] + trimmed[6..];
      assert IsImageType(mime, blanks, trimmed[..6], trimmed[6..]);
    }
    if NamesImage(mime) {
      var blanks, prefix, rest :| IsImageType(mime, blanks, prefix, rest);
      var typed := prefix + rest;
      SpellsLower(prefix);
      assert mime == blanks + typed;
      SpaceIsWhite(typed[0]);
      TrimLeftOf(blanks, typed);
      assert ToLower(typed)[..6] == ToLower(prefix);
    }
  }
}
