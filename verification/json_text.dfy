/** JSON text as the grammar of RFC 8259 (sections 2 to 7) allows it to be written: any
    whitespace around every value and structural character, numbers as their written digits,
    and string characters either unescaped or as one of the escapes of section 7. The round-trip
    lemmas about the extractor are stated over this syntax tree, so they cover every layout a
    judge may use (compact, `json.dumps`'s default, indented, or mixed). */
module JsonText {

  /** One character of a string literal as written: itself, a two-character escape such as
      `\n` or `\"`, or a `\u` escape with its four hexadecimal digits. */
  datatype Piece = Raw(c: char) | Short(c: char) | Unicode(hex: string)

  datatype Json =
    | JNull
    | JBool(b: bool)
    | JNumber(text: string)
    | JStr(pieces: seq<Piece>)
    | JArray(items: seq<Item>, blank: string)      // `blank`: the whitespace of `[ ]`
    | JObject(members: seq<Member>, blank: string) // `blank`: the whitespace of `{ }`

  /** An array element with the whitespace written before and after it. */
  datatype Item = Item(before: string, value: Json, after: string)

  /** An object member: whitespace, the key, whitespace, `:`, whitespace, the value, whitespace. */
  datatype Member = Member(before: string, key: seq<Piece>, beforeColon: string,
                           afterColon: string, value: Json, after: string)

  /** Whitespace as section 2 defines it: space, tab, line feed, carriage return. */
  predicate Blank(w: string)
  {
    forall i :: 0 <= i < |w| ==> w[i] == ' ' || w[i] == '\t' || w[i] == '\n' || w[i] == '\r'
  }

  predicate HexDigit(c: char)
  {
    ('0' <= c <= '9') || ('a' <= c <= 'f') || ('A' <= c <= 'F')
  }

  /** The characters a number is written with (section 6): digits, sign, point, exponent. */
  predicate NumberText(t: string)
  {
    t != [] && forall i :: 0 <= i < |t| ==>
      ('0' <= t[i] <= '9') || t[i] == '-' || t[i] == '+' || t[i] == '.' || t[i] == 'e' || t[i] == 'E'
  }

  /** Section 7: an unescaped character is neither a quote, a backslash nor a control
      character; the short escapes are `\" \\ \/ \b \f \n \r \t`. */
  predicate ValidPiece(p: Piece)
  {
    match p
    case Raw(c) => ' ' <= c && c != '"' && c != '\\'
    case Short(c) => c == '"' || c == '\\' || c == '/' || c == 'b' || c == 'f' || c == 'n' || c == 'r' || c == 't'
    case Unicode(hex) => |hex| == 4 && forall i :: 0 <= i < 4 ==> HexDigit(hex[i])
  }

  predicate ValidPieces(pieces: seq<Piece>)
  {
    forall i :: 0 <= i < |pieces| ==> ValidPiece(pieces[i])
  }

  predicate Valid(v: Json)
    decreases v, 1
  {
    match v
    case JNull => true
    case JBool(_) => true
    case JNumber(text) => NumberText(text)
    case JStr(pieces) => ValidPieces(pieces)
    case JArray(items, blank) => Blank(blank) && ValidItems(items)
    case JObject(members, blank) => Blank(blank) && ValidMembers(members)
  }

  predicate ValidItems(items: seq<Item>)
    decreases items, 0
  {
    forall i :: 0 <= i < |items| ==>
      Blank(items[i].before) && Valid(items[i].value) && Blank(items[i].after)
  }

  predicate ValidMembers(members: seq<Member>)
    decreases members, 0
  {
    forall i :: 0 <= i < |members| ==> ValidMember(members[i])
  }

  predicate ValidMember(m: Member)
    decreases m, 0
  {
    && Blank(m.before) && ValidPieces(m.key) && Blank(m.beforeColon)
    && Blank(m.afterColon) && Valid(m.value) && Blank(m.after)
  }

  function PieceText(p: Piece): string
  {
    match p
    case Raw(c) => [c]
    case Short(c) => ['\\', c]
    case Unicode(hex) => ['\\', 'u'] + hex
  }

  /** The characters between the quotes of a string. */
  function PiecesText(pieces: seq<Piece>): string
  {
    if pieces == [] then [] else PieceText(pieces[0]) + PiecesText(pieces[1..])
  }

  function Quote(pieces: seq<Piece>): string
  {
    ['"'] + PiecesText(pieces) + ['"']
  }

  function Text(v: Json): string
    decreases v, 1
  {
    match v
    case JNull => "null"
    case JBool(b) => if b then "true" else "false"
    case JNumber(text) => text
    case JStr(pieces) => Quote(pieces)
    case JArray(items, blank) => "[" + (if items == [] then blank else ItemsText(items)) + "]"
    case JObject(members, blank) => "{" + (if members == [] then blank else MembersText(members)) + "}"
  }

  function ItemText(item: Item): string
    decreases item, 0
  {
    item.before + Text(item.value) + item.after
  }

  /** The elements, separated by commas. */
  function ItemsText(items: seq<Item>): string
    decreases items, 0
  {
    if items == [] then ""
    else if |items| == 1 then ItemText(items[0])
    else ItemText(items[0]) + "," + ItemsText(items[1..])
  }

  function MemberText(m: Member): string
    decreases m, 0
  {
    m.before + Quote(m.key) + m.beforeColon + ":" + m.afterColon + Text(m.value) + m.after
  }

  /** The members, separated by commas. */
  function MembersText(members: seq<Member>): string
    decreases members, 0
  {
    if members == [] then ""
    else if |members| == 1 then MemberText(members[0])
    else MemberText(members[0]) + "," + MembersText(members[1..])
  }
}
