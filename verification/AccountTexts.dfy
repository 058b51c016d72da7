/** The text of the user file, written out: JSON with every character outside printable ASCII escaped. */
module AccountTexts {
  import opened Sequences
  import opened Accounts
  import opened AccountSizes

  function HexDigit(n: nat): char
    requires n < 16
  {
    "0123456789abcdef"[n]
  }

  function Hex4(n: nat): (s: string)
    requires n < 0x1_0000
    ensures |s| == 4
  {
    [HexDigit(n / 4096), HexDigit(n / 256 % 16), HexDigit(n / 16 % 16), HexDigit(n % 16)]
  }

  /** A character beyond the basic plane is written as a surrogate pair. */
  function Escape(c: char): string {
    if c == '"' then "\\\""
    else if c == '\\' then "\\\\"
    else if c == '\n' then "\\n"
    else if c == '\r' then "\\r"
    else if c == '\t' then "\\t"
    else if c == '\U{0008}' then "\\b"
    else if c == '\U{000C}' then "\\f"
    else if ' ' <= c <= '~' then [c]
    else
      var n := c as int;
      if n > 0xFFFF then "\\u" + Hex4(0xD800 + (n - 0x1_0000) / 1024) + "\\u" + Hex4(0xDC00 + n % 1024)
      else "\\u" + Hex4(n)
  }

  function Escapes(s: string): string {
    if s == [] then [] else Escape(s[0]) + Escapes(s[1..])
  }

  function Quoted(s: string): string {
    "\"" + Escapes(s) + "\""
  }

  /** The parts with a comma and a space between them. */
  function Joined(parts: seq<string>): string {
    if parts == [] then [] else if |parts| == 1 then parts[0] else parts[0] + ", " + Joined(parts[1..])
  }

  function Items(workspaces: seq<string>): seq<string> {
    if workspaces == [] then [] else [Quoted(workspaces[0])] + Items(workspaces[1..])
  }

  function ListText(workspaces: seq<string>): string {
    "[" + Joined(Items(workspaces)) + "]"
  }

  /** One account as the file has it; salt and digest are 64 hexadecimal digits. */
  datatype Row = Row(name: Name, admin: bool, workspaces: seq<string>, salt: string, digest: string)

  function RowText(row: Row): string {
    Quoted(row.name) + ": {\"role\": " + (if row.admin then "\"admin\"" else "\"workspaceUser\"")
    + ", \"workspaces\": " + ListText(row.workspaces)
    + ", \"salt\": " + Quoted(row.salt) + ", \"digest\": " + Quoted(row.digest) + "}"
  }

  function RowTexts(rows: seq<Row>): seq<string> {
    if rows == [] then [] else [RowText(rows[0])] + RowTexts(rows[1..])
  }

  function FileText(rows: seq<Row>): string {
    "{" + Joined(RowTexts(rows)) + "}"
  }

  predicate Digits(s: string) {
    |s| == 64 && forall i | 0 <= i < |s| :: '0' <= s[i] <= '9' || 'a' <= s[i] <= 'f'
  }

  ghost predicate NoRepeat<T>(items: seq<T>) {
    items == [] || (items[0] !in items[1..] && NoRepeat(items[1..]))
  }

  /** The row tells what the table holds for its name. */
  ghost predicate Tells(row: Row, user: User) {
    && row.admin == user.admin && AsSet(row.workspaces) == user.workspaces && NoRepeat(row.workspaces)
    && Digits(row.salt) && Digits(row.digest)
  }

  /** The rows list the table, each account once, in any order. */
  ghost predicate Lists(rows: seq<Row>, users: Users) {
    if rows == [] then users == map[]
    else rows[0].name in users && Tells(rows[0], users[rows[0].name]) && Lists(rows[1..], users - {rows[0].name})
  }

  // ---------- lengths ----------

  lemma {:induction false} EscapedBytes(c: char)
    ensures |Escape(c)| == CharBytes(c)
  {
  }

  lemma {:induction false} EscapesBytes(s: string)
    ensures |Escapes(s)| + 2 == TextBytes(s) == |Quoted(s)|
  {
    if s != [] {
      EscapedBytes(s[0]);
      EscapesBytes(s[1..]);
    }
  }

  function Total(parts: seq<string>): nat {
    if parts == [] then 0 else |parts[0]| + 2 + Total(parts[1..])
  }

  lemma {:induction false} JoinedLength(parts: seq<string>)
    requires parts != []
    ensures |Joined(parts)| + 2 == Total(parts)
  {
    if |parts| > 1 {
      JoinedLength(parts[1..]);
    } else {
      assert parts[1..] == [];
    }
  }

  lemma {:induction false} ItemsTotal(workspaces: seq<string>)
    requires NoRepeat(workspaces)
    ensures Total(Items(workspaces)) == ItemBytes(AsSet(workspaces))
  {
    if workspaces == [] {
      assert AsSet(workspaces) == {};
    } else {
      var w, rest := workspaces[0], workspaces[1..];
      ItemsTotal(rest);
      EscapesBytes(w);
      Uncons(Quoted(w), Items(rest));
      assert workspaces == [w] + rest;
      assert AsSet(workspaces) - {w} == AsSet(rest);
      ItemOut(AsSet(workspaces), w);
    }
  }

  lemma {:induction false} ListLength(workspaces: seq<string>)
    requires NoRepeat(workspaces)
    ensures |ListText(workspaces)| == ListBytes(AsSet(workspaces))
  {
    ItemsTotal(workspaces);
    if workspaces != [] {
      JoinedLength(Items(workspaces));
      assert workspaces[0] in AsSet(workspaces);
    } else {
      assert AsSet(workspaces) == {};
    }
  }

  lemma {:induction false} DigitsPlain(s: string)
    requires forall i | 0 <= i < |s| :: '0' <= s[i] <= '9' || 'a' <= s[i] <= 'f'
    ensures TextBytes(s) == |s| + 2
  {
    if s != [] {
      DigitsPlain(s[1..]);
    }
  }

  lemma {:induction false} RowLength(row: Row, user: User)
    requires Tells(row, user)
    ensures |RowText(row)| == EntryBytes(row.name, user)
  {
    EscapesBytes(row.name);
    EscapesBytes(row.salt);
    EscapesBytes(row.digest);
    DigitsPlain(row.salt);
    DigitsPlain(row.digest);
    ListLength(row.workspaces);
  }

  lemma {:induction false} RowsTotal(rows: seq<Row>, users: Users)
    requires Lists(rows, users)
    ensures Total(RowTexts(rows)) == EntriesBytes(users)
    decreases |rows|
  {
    if rows != [] {
      var row, rest := rows[0], rows[1..];
      RowsTotal(rest, users - {row.name});
      RowLength(row, users[row.name]);
      Uncons(RowText(row), RowTexts(rest));
      EntryOut(users, row.name);
    }
  }

  /** Main result: the size counted for a table is the length of its file, written out in any order. */
  lemma {:induction false} SizeIsLength(rows: seq<Row>, users: Users)
    requires Lists(rows, users)
    ensures |FileText(rows)| == TableBytes(users)
    ensures Fits(users) <==> |FileText(rows)| <= 1048576
  {
    RowsTotal(rows, users);
    if rows != [] {
      JoinedLength(RowTexts(rows));
    }
  }
}
