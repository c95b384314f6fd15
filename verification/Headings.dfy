/** The line patterns a changelog is read by. */
module Headings {
  import opened Wrappers
  import opened Lines

  predicate IsBlank(c: char) { c == ' ' || c == '\t' }

  /** The characters `strip` removes. */
  predicate IsSpace(c: char) {
    IsBreak(c) || IsBlank(c) || c == '\U{1F}' || c == '\U{A0}' || c == '\U{1680}'
    || '\U{2000}' <= c <= '\U{200A}' || c == '\U{202F}' || c == '\U{205F}' || c == '\U{3000}'
  }

  /** A line without the `\r` and `\n` it ends with. */
  function Bare(l: string): string {
    if l != "" && (l[|l| - 1] == '\r' || l[|l| - 1] == '\n') then Bare(l[..|l| - 1]) else l
  }

  /** A line without any of the space it ends with. */
  function Trimmed(l: string): string {
    if l != "" && IsSpace(l[|l| - 1]) then Trimmed(l[..|l| - 1]) else l
  }

  predicate AllSpace(l: string) {
    forall c | c in l :: IsSpace(c)
  }

  /** `hashes`, at least one blank, and at least one character after it, all on one
      line as a pattern's dot reads it. */
  predicate Opens(s: string, hashes: nat) {
    '\n' !in s && |s| >= hashes + 2 && (forall i | 0 <= i < hashes :: s[i] == '#') && IsBlank(s[hashes])
  }

  function DropBlanks(s: string): string {
    if s != "" && IsBlank(s[0]) then DropBlanks(s[1..]) else s
  }

  function TrimBlanks(s: string): string {
    if s != "" && IsBlank(s[|s| - 1]) then TrimBlanks(s[..|s| - 1]) else s
  }

  /** What a heading says: its text between the blanks, or its last blank where it
      has nothing else. */
  function Title(s: string, hashes: nat): string
    requires Opens(s, hashes)
  {
    var rest := DropBlanks(s[hashes..]);
    if rest == "" then [s[|s| - 1]] else TrimBlanks(rest)
  }

  predicate IsSection(l: string) { Opens(Bare(l), 2) }

  /** The class an entry heading names. */
  function Heading(l: string): Option<string> {
    if Opens(Bare(l), 3) then Some(Title(Bare(l), 3)) else None
  }

  predicate IsDigit(c: char) { '0' <= c <= '9' }

  predicate IsDate(t: string) {
    && |t| == 10 && t[4] == '-' && t[7] == '-'
    && (forall i | 0 <= i < 10 && i != 4 && i != 7 :: IsDigit(t[i]))
  }

  /** The date a section heading gives, if its title is one. */
  function DateOf(l: string): Option<string> {
    if IsSection(l) && IsDate(Title(Bare(l), 2)) then Some(Title(Bare(l), 2)) else None
  }

  /** A lone line feed after a line changes nothing it is read by. */
  lemma BareFeed(l: string)
    ensures Bare(l + "\n") == Bare(l)
    ensures IsSection(l + "\n") == IsSection(l) && Heading(l + "\n") == Heading(l) && DateOf(l + "\n") == DateOf(l)
  {
    assert (l + "\n")[..|l|] == l;
  }

  predicate IsEnding(nl: string) { nl == "\n" || nl == "\r\n" }

  lemma BareOne(l: string, c: char)
    requires c == '\r' || c == '\n'
    ensures Bare(l + [c]) == Bare(l)
  {
    assert (l + [c])[..|l|] == l;
  }

  lemma BareEnding(l: string, nl: string)
    requires IsEnding(nl) && (l == "" || (l[|l| - 1] != '\r' && l[|l| - 1] != '\n'))
    ensures Bare(l + nl) == l
  {
    BareOne(l, '\n');
    BareOne(l, '\r');
    BareOne(l + "\r", '\n');
    assert l + "\r\n" == l + "\r" + "\n";
  }

  lemma TrimNone(s: string)
    requires s != "" && !IsBlank(s[0]) && !IsBlank(s[|s| - 1])
    ensures DropBlanks(s) == s && TrimBlanks(s) == s
  {}

  /** A section heading reads back as the title it was written with. */
  lemma WrittenTitle(title: string, nl: string)
    requires title != "" && IsEnding(nl) && !IsBlank(title[0]) && !IsBlank(title[|title| - 1])
    requires '\n' !in title && title[|title| - 1] != '\r'
    ensures var l := "## " + title + nl;
      IsSection(l) && DateOf(l) == if IsDate(title) then Some(title) else None
  {
    var s := "## " + title;
    BareEnding(s, nl);
    assert s[2..] == " " + title && s[2..][1..] == title;
    TrimNone(title);
    assert DropBlanks(s[2..]) == DropBlanks(title);
    assert forall c | c in s :: c == '#' || c == ' ' || c in title;
  }

  /** The dated heading the fold writes reads back as its date. */
  lemma WrittenDate(date: string, nl: string)
    requires IsDate(date) && IsEnding(nl)
    ensures DateOf("## " + date + nl) == Some(date) && IsSection("## " + date + nl)
  {
    assert IsDigit(date[0]) && IsDigit(date[9]);
    assert forall c | c in date :: IsDigit(c) || c == '-';
    WrittenTitle(date, nl);
  }

  /** And a class heading as its class. */
  lemma WrittenHeading(name: string, nl: string)
    requires name != "" && IsEnding(nl) && (forall c | c in name :: !IsSpace(c))
    ensures Heading("### " + name + nl) == Some(name) && !IsSection("### " + name + nl)
  {
    var s := "### " + name;
    assert name[|name| - 1] in name && name[0] in name;
    BareEnding(s, nl);
    assert s[3..] == " " + name && s[3..][1..] == name;
    TrimNone(name);
    assert DropBlanks(s[3..]) == DropBlanks(name);
  }

  // What `check` refuses in a fragment, and what it lets through

  /** The check's own pattern, applied to a line without its trailing space. */
  predicate IsTopHeading(l: string) {
    var s := Trimmed(l);
    (|s| >= 2 && s[0] == '#' && IsBlank(s[1])) || (|s| >= 3 && s[0] == s[1] == '#' && IsBlank(s[2]))
  }

  lemma {:induction false} BareTrims(l: string)
    ensures Trimmed(Bare(l)) == Trimmed(l)
    ensures |Trimmed(l)| <= |Bare(l)| <= |l| && Trimmed(l) == Bare(l)[..|Trimmed(l)|] && Bare(l) == l[..|Bare(l)|]
  {
    if l != "" && (l[|l| - 1] == '\r' || l[|l| - 1] == '\n') {
      BareTrims(l[..|l| - 1]);
    } else {
      TrimPrefix(l);
    }
  }

  lemma {:induction false} TrimPrefix(l: string)
    ensures |Trimmed(l)| <= |l| && Trimmed(l) == l[..|Trimmed(l)|]
    ensures forall i | |Trimmed(l)| <= i < |l| :: IsSpace(l[i])
  {
    if l != "" && IsSpace(l[|l| - 1]) { TrimPrefix(l[..|l| - 1]); }
  }

  /** A section heading gets past the check exactly when nothing but space follows
      its two hashes: the check strips all of that space before it looks, and the
      parser strips only the line ending. */
  lemma CheckMissesExactly(l: string)
    requires IsSection(l)
    ensures !IsTopHeading(l) <==> AllSpace(Bare(l)[2..])
  {
    BareTrims(l);
    var b, t := Bare(l), Trimmed(l);
    TrimPrefix(b);
    if |t| >= 3 {
      assert t[2] == b[2];
      TrimEnd(b);
      assert !IsSpace(b[|t| - 1]);
      assert b[2..][|t| - 3] == b[|t| - 1];
      assert b[|t| - 1] in b[2..];
    } else {
      assert forall c | c in b[2..] :: IsSpace(c) by {
        forall i | 0 <= i < |b[2..]| ensures IsSpace(b[2..][i]) { assert b[2..][i] == b[i + 2]; }
      }
    }
  }

  lemma {:induction false} TrimEnd(l: string)
    ensures Trimmed(l) != "" ==> !IsSpace(Trimmed(l)[|Trimmed(l)| - 1])
  {
    if l != "" && IsSpace(l[|l| - 1]) { TrimEnd(l[..|l| - 1]); }
  }

  lemma {:induction false} DropBlanksKeeps(s: string)
    ensures forall c | c in DropBlanks(s) :: c in s
  {
    if s != "" && IsBlank(s[0]) { DropBlanksKeeps(s[1..]); }
  }

  lemma {:induction false} TrimBlanksKeeps(s: string)
    ensures forall c | c in TrimBlanks(s) :: c in s
  {
    if s != "" && IsBlank(s[|s| - 1]) { TrimBlanksKeeps(s[..|s| - 1]); }
  }

  /** And what gets past gives no date. */
  lemma SpaceIsNoDate(l: string)
    requires IsSection(l) && AllSpace(Bare(l)[2..])
    ensures DateOf(l) == None
  {
    var t, rest := Title(Bare(l), 2), DropBlanks(Bare(l)[2..]);
    DropBlanksKeeps(Bare(l)[2..]);
    TrimBlanksKeeps(rest);
    assert forall c | c in t :: IsSpace(c);
    assert t != "" ==> t[0] in t;
  }
}
