/**
 The messages the programs exchange, as JSON values. Their text (json_dumps and json_loads) is not
 modelled, and the names of the fields are the values of a datatype.
 */
module Messages {
  import opened Blocks
  import opened Base64
  import opened Numbers
  import opened Records

  datatype Name =
    | HashField | DataField | SizeField | CmpTypeField | UncmpSizeField
    | MsgId | FileType | Mode | ATime | CTime | MTime | FSize | Inode | Owner | Group | Uid | Gid
    | NameField | Link | HostName | DataSent | HashList | DataArray

  datatype Json =
    | JNull
    | JBool(bool)
    | JInt(value: int)
    | JText(text: string)
    | JArray(items: seq<Json>)
    | JObject(fields: map<Name, Json>)

  // ---------- values ----------

  /** json_integer: the number as a signed 64-bit integer. */
  function Integer(n: uint64): (j: Json)
    ensures j.JInt? && -0x8000_0000_0000_0000 <= j.value < 0x8000_0000_0000_0000
    ensures j.value % 0x1_0000_0000_0000_0000 == n
  {
    JInt(if n < 0x8000_0000_0000_0000 then n else n - 0x1_0000_0000_0000_0000)
  }

  /** get_json_value_from_json_root; NULL when there is no such field. */
  function Get(root: Json, name: Name): Json {
    if root.JObject? && name in root.fields then root.fields[name] else JNull
  }

  /** json_integer_value: zero for anything but an integer. */
  function IntegerValue(j: Json): int {
    if j.JInt? then j.value else 0
  }

  /** json_string_value; what a missing string decodes to is taken as empty. */
  function StringValue(j: Json): string {
    if j.JText? then j.text else ""
  }

  /** g_base64_decode, of a string field. */
  function DecodedAt(root: Json, name: Name): seq<byte> {
    Decode(StringValue(Get(root, name)))
  }

  lemma DecodedReadBack(fields: map<Name, Json>, name: Name, s: seq<byte>)
    requires name in fields && fields[name] == JText(Encode(s))
    ensures DecodedAt(JObject(fields), name) == s
  {
    DecodeEncode(s);
  }

  function Uint64At(root: Json, name: Name): uint64 {
    IntegerValue(Get(root, name)) % 0x1_0000_0000_0000_0000
  }

  function Uint32At(root: Json, name: Name): uint32 {
    IntegerValue(Get(root, name)) % 0x1_0000_0000
  }

  function Uint8At(root: Json, name: Name): uint8 {
    IntegerValue(Get(root, name)) % 0x100
  }

  ghost predicate HasInteger(fields: map<Name, Json>, name: Name, n: nat) {
    name in fields && n < 0x1_0000_0000_0000_0000 && fields[name] == Integer(n)
  }

  lemma IntegerReadBack(fields: map<Name, Json>, name: Name, n: nat)
    requires HasInteger(fields, name, n)
    ensures Uint64At(JObject(fields), name) == n
  {
  }

  /** A C string and the text of a JSON string have the same characters. */
  function Chars(s: CString): (r: string)
    ensures |r| == |s| && forall i :: 0 <= i < |s| ==> r[i] == s[i] as char
  {
    seq(|s|, i requires 0 <= i < |s| => s[i] as char)
  }

  function Bytes(s: string): CString {
    var bytes: seq<byte> := seq(|s|, i requires 0 <= i < |s| => s[i] as int % 256);
    UpTo(bytes, 0)
  }

  lemma BytesChars(s: CString)
    ensures Bytes(Chars(s)) == s
  {
    var chars := Chars(s);
    var back: seq<byte> := seq(|chars|, i requires 0 <= i < |chars| => chars[i] as int % 256);
    assert |back| == |s| && forall i :: 0 <= i < |s| ==> back[i] == s[i];
    assert back == s;
    NothingToCut(s, 0);
  }

  // ---------- hash lists ----------

  function HashArray(hashes: seq<seq<byte>>): Json {
    JArray(seq(|hashes|, i requires 0 <= i < |hashes| => JText(Encode(hashes[i]))))
  }

  /** convert_hash_list_to_json */
  method ConvertHashListToJson(hashes: seq<seq<byte>>) returns (json: Json)
    ensures json == HashArray(hashes)
  {
    var items: seq<Json> := [];
    var head := 0;
    while head < |hashes|
      invariant 0 <= head <= |hashes| && |items| == head
      invariant forall i :: 0 <= i < head ==> items[i] == JText(Encode(hashes[i]))
    {
      items := items + [JText(Encode(hashes[head]))];
      head := head + 1;
    }
    json := JArray(items);
  }

  function ItemsAt(root: Json, name: Name): seq<Json> {
    var value := Get(root, name);
    if value.JArray? then value.items else []
  }

  function HashesAt(root: Json, name: Name): seq<seq<byte>> {
    var items := ItemsAt(root, name);
    seq(|items|, i requires 0 <= i < |items| => Decode(StringValue(items[i])))
  }

  /** extract_glist_from_array, when only the hashes are wanted. */
  method ExtractHashes(root: Json, name: Name) returns (hashes: seq<seq<byte>>)
    ensures hashes == HashesAt(root, name)
  {
    var items := ItemsAt(root, name);
    hashes := [];
    var index := 0;
    while index < |items|
      invariant 0 <= index <= |items| && |hashes| == index
      invariant forall i :: 0 <= i < index ==> hashes[i] == Decode(StringValue(items[index - 1 - i]))
    {
      hashes := [Decode(StringValue(items[index]))] + hashes;
      index := index + 1;
    }
    hashes := Reverse(hashes);
  }

  /** A hash list is read back as it was sent. */
  lemma HashesReadBack(hashes: seq<seq<byte>>, fields: map<Name, Json>, name: Name)
    requires name in fields && fields[name] == HashArray(hashes)
    ensures HashesAt(JObject(fields), name) == hashes
  {
    forall i | 0 <= i < |hashes| ensures HashesAt(JObject(fields), name)[i] == hashes[i] {
      DecodeEncode(hashes[i]);
    }
  }

  // ---------- blocks ----------

  function CmpTypeNumber(c: Compression): int {
    match c case NoCompression => 0 case Zlib => 1
  }

  function CmpTypeOf(n: int): Compression {
    if n == 1 then Zlib else NoCompression
  }

  /** convert_hash_data_t_to_json */
  function BlockJson(b: HashData): Json
    requires |b.data| < 0x1_0000_0000_0000_0000 && b.uncmplen < 0x1_0000_0000_0000_0000
  {
    JObject(map[HashField := JText(Encode(b.hash)),
                DataField := JText(Encode(b.data)),
                SizeField := Integer(|b.data|),
                CmpTypeField := JInt(CmpTypeNumber(b.cmptype)),
                UncmpSizeField := Integer(b.uncmplen)])
  }

  /** convert_json_t_to_hash_data; NULL when a length is wrong. */
  function BlockFrom(root: Json): Option<HashData> {
    var data, hash := DecodedAt(root, DataField), DecodedAt(root, HashField);
    var cmptype := CmpTypeOf(IntegerValue(Get(root, CmpTypeField)));
    if |data| == Uint64At(root, SizeField) && |hash| == HASH_LEN then
      Some(HashData(hash, data, cmptype, Uint64At(root, UncmpSizeField)))
    else None
  }

  /** The fields of a block say what the block is. */
  ghost predicate FieldsOfBlock(fields: map<Name, Json>, b: HashData) {
    && {HashField, DataField, SizeField, CmpTypeField, UncmpSizeField} <= fields.Keys
    && fields[HashField] == JText(Encode(b.hash)) && fields[DataField] == JText(Encode(b.data))
    && fields[CmpTypeField] == JInt(CmpTypeNumber(b.cmptype))
    && HasInteger(fields, SizeField, |b.data|) && HasInteger(fields, UncmpSizeField, b.uncmplen)
  }

  lemma BlockReadBack(b: HashData)
    requires |b.data| < 0x1_0000_0000_0000_0000 && b.uncmplen < 0x1_0000_0000_0000_0000
    ensures BlockFrom(BlockJson(b)) == Some(b)
  {
    var fields := BlockJson(b).fields;
    assert FieldsOfBlock(fields, b);
    BlockFromFields(fields, b);
  }

  lemma BlockFromFields(fields: map<Name, Json>, b: HashData)
    requires FieldsOfBlock(fields, b)
    ensures BlockFrom(JObject(fields)) == Some(b)
  {
    DecodedReadBack(fields, HashField, b.hash);
    DecodedReadBack(fields, DataField, b.data);
    IntegerReadBack(fields, SizeField, |b.data|);
    IntegerReadBack(fields, UncmpSizeField, b.uncmplen);
    var root := JObject(fields);
    var data, hash := DecodedAt(root, DataField), DecodedAt(root, HashField);
    assert data == b.data;
    assert hash == b.hash;
    assert CmpTypeOf(IntegerValue(Get(root, CmpTypeField))) == b.cmptype;
    assert Uint64At(root, UncmpSizeField) == b.uncmplen;
    assert BlockFrom(root).Some?;
  }

  function BlocksAt(root: Json, name: Name): seq<Option<HashData>> {
    var items := ItemsAt(root, name);
    seq(|items|, i requires 0 <= i < |items| => BlockFrom(items[i]))
  }

  /** extract_glist_from_array, when whole blocks are wanted. */
  method ExtractBlocks(root: Json, name: Name) returns (blocks: seq<Option<HashData>>)
    ensures blocks == BlocksAt(root, name)
  {
    var items := ItemsAt(root, name);
    blocks := [];
    var index := 0;
    while index < |items|
      invariant 0 <= index <= |items| && |blocks| == index
      invariant forall i :: 0 <= i < index ==> blocks[i] == BlockFrom(items[index - 1 - i])
    {
      blocks := [BlockFrom(items[index])] + blocks;
      index := index + 1;
    }
    blocks := Reverse(blocks);
  }

  /** The blocks of a /Data_Array.json request, in order, none of them damaged. */
  lemma BlocksReadBack(list: seq<HashData>, fields: map<Name, Json>)
    requires forall i :: 0 <= i < |list| ==>
      |list[i].data| < 0x1_0000_0000_0000_0000 && list[i].uncmplen < 0x1_0000_0000_0000_0000
    requires DataArray in fields
    requires fields[DataArray] == JArray(seq(|list|, i requires 0 <= i < |list| => BlockJson(list[i])))
    ensures BlocksAt(JObject(fields), DataArray) == seq(|list|, i requires 0 <= i < |list| => Some(list[i]))
  {
    forall i | 0 <= i < |list| ensures BlocksAt(JObject(fields), DataArray)[i] == Some(list[i]) {
      BlockReadBack(list[i]);
    }
  }

  // ---------- records ----------

  /** server_meta_data_t */
  datatype Smeta = Smeta(meta: Meta, hostname: CString, dataSent: bool)

  const ENC_META_DATA := 1

  /** convert_meta_data_to_json; the group number it writes is the user number. */
  function MetaJson(m: Meta, hostname: CString, dataSent: bool): Json {
    JObject(map[MsgId := JInt(ENC_META_DATA), FileType := JInt(m.fileType), Mode := JInt(m.mode),
                ATime := Integer(m.atime), CTime := Integer(m.ctime), MTime := Integer(m.mtime),
                FSize := Integer(m.size), Inode := Integer(m.inode),
                Owner := JText(m.owner), Group := JText(m.group),
                Uid := JInt(m.uid), Gid := JInt(m.uid),
                NameField := JText(Chars(m.name)), Link := JText(Chars(m.link)),
                HostName := JText(Chars(hostname)), DataSent := JBool(dataSent),
                HashList := HashArray(m.hashes)])
  }

  /** fills_server_meta_data_t_from_json_t */
  function SmetaFrom(root: Json): Smeta {
    Smeta(Meta(Uint8At(root, FileType), Uint64At(root, Inode), Uint32At(root, Mode),
               Uint64At(root, ATime), Uint64At(root, CTime), Uint64At(root, MTime), Uint64At(root, FSize),
               StringValue(Get(root, Owner)), StringValue(Get(root, Group)),
               Uint32At(root, Uid), Uint32At(root, Gid),
               Bytes(StringValue(Get(root, NameField))), Bytes(StringValue(Get(root, Link))),
               HashesAt(root, HashList)),
          Bytes(StringValue(Get(root, HostName))), Get(root, DataSent) == JBool(true))
  }

  ghost predicate NumbersOfMeta(fields: map<Name, Json>, m: Meta) {
    SmallNumbersOfMeta(fields, m) && BigNumbersOfMeta(fields, m)
  }

  ghost predicate SmallNumbersOfMeta(fields: map<Name, Json>, m: Meta) {
    && {FileType, Mode, Uid, Gid} <= fields.Keys
    && fields[FileType] == JInt(m.fileType) && fields[Mode] == JInt(m.mode)
    && fields[Uid] == JInt(m.uid) && fields[Gid] == JInt(m.uid)
  }

  ghost predicate BigNumbersOfMeta(fields: map<Name, Json>, m: Meta) {
    && HasInteger(fields, ATime, m.atime) && HasInteger(fields, CTime, m.ctime)
    && HasInteger(fields, MTime, m.mtime) && HasInteger(fields, FSize, m.size)
    && HasInteger(fields, Inode, m.inode)
  }

  ghost predicate TextsOfMeta(fields: map<Name, Json>, m: Meta, hostname: CString, dataSent: bool) {
    && {Owner, Group, NameField, Link, HostName, DataSent, HashList} <= fields.Keys
    && fields[Owner] == JText(m.owner) && fields[Group] == JText(m.group)
    && fields[NameField] == JText(Chars(m.name)) && fields[Link] == JText(Chars(m.link))
    && fields[HostName] == JText(Chars(hostname)) && fields[DataSent] == JBool(dataSent)
    && fields[HashList] == HashArray(m.hashes)
  }

  lemma MetaJsonSmallNumbers(m: Meta, hostname: CString, dataSent: bool)
    ensures SmallNumbersOfMeta(MetaJson(m, hostname, dataSent).fields, m)
  {
  }

  lemma MetaJsonBigNumbers(m: Meta, hostname: CString, dataSent: bool)
    ensures BigNumbersOfMeta(MetaJson(m, hostname, dataSent).fields, m)
  {
  }

  lemma MetaJsonTexts(m: Meta, hostname: CString, dataSent: bool)
    ensures TextsOfMeta(MetaJson(m, hostname, dataSent).fields, m, hostname, dataSent)
  {
  }

  lemma NumbersFromFields(fields: map<Name, Json>, m: Meta)
    requires NumbersOfMeta(fields, m)
    ensures var root := JObject(fields);
      && Uint8At(root, FileType) == m.fileType && Uint32At(root, Mode) == m.mode
      && Uint32At(root, Uid) == m.uid && Uint32At(root, Gid) == m.uid
      && Uint64At(root, ATime) == m.atime && Uint64At(root, CTime) == m.ctime
      && Uint64At(root, MTime) == m.mtime && Uint64At(root, FSize) == m.size && Uint64At(root, Inode) == m.inode
  {
    IntegerReadBack(fields, ATime, m.atime);
    IntegerReadBack(fields, CTime, m.ctime);
    IntegerReadBack(fields, MTime, m.mtime);
    IntegerReadBack(fields, FSize, m.size);
    IntegerReadBack(fields, Inode, m.inode);
  }

  lemma TextsFromFields(fields: map<Name, Json>, m: Meta, hostname: CString, dataSent: bool)
    requires TextsOfMeta(fields, m, hostname, dataSent)
    ensures var root := JObject(fields);
      && StringValue(Get(root, Owner)) == m.owner && StringValue(Get(root, Group)) == m.group
      && Bytes(StringValue(Get(root, NameField))) == m.name && Bytes(StringValue(Get(root, Link))) == m.link
      && HashesAt(root, HashList) == m.hashes
      && Bytes(StringValue(Get(root, HostName))) == hostname && Get(root, DataSent) == JBool(dataSent)
  {
    HashesReadBack(m.hashes, fields, HashList);
    BytesChars(m.name);
    BytesChars(m.link);
    BytesChars(hostname);
  }

  /** What the server gets is the record sent, but for the group number. */
  lemma MetaReadBack(m: Meta, hostname: CString, dataSent: bool)
    ensures SmetaFrom(MetaJson(m, hostname, dataSent)) == Smeta(m.(gid := m.uid), hostname, dataSent)
  {
    MetaJsonSmallNumbers(m, hostname, dataSent);
    MetaJsonBigNumbers(m, hostname, dataSent);
    MetaJsonTexts(m, hostname, dataSent);
    var fields := MetaJson(m, hostname, dataSent).fields;
    NumbersFromFields(fields, m);
    TextsFromFields(fields, m, hostname, dataSent);
  }

  /** So the record arrives unchanged exactly when its group number equals its user number. */
  lemma MetaReadBackIff(m: Meta, hostname: CString, dataSent: bool)
    ensures SmetaFrom(MetaJson(m, hostname, dataSent)) == Smeta(m, hostname, dataSent) <==> m.gid == m.uid
  {
    MetaReadBack(m, hostname, dataSent);
  }
}
