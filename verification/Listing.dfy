/**
 The page that lists a directory: functions/appendStr.c and server.c:427-453. A C string is given by
 its bytes, so its strlen is its length.
 */
module Listing {
  import opened CText
  import opened Receive
  import opened Response
  import opened Wire
  import ResponseFields

  const PAGE_BUFFER := 9999   // sizeof(buf) - 1

  function Link(name: string): (l: string)
    ensures |l| == 2 * |name| + |"<a href=\"\"></a><br />\n"|
  {
    "<a href=\"" + name + "\">" + name + "</a><br />\n"
  }

  /** What a name adds to the page: itself if it shows the server's name, else a link without its line feed. */
  function Entry(name: string): string {
    if Contains(name, SERVER_NAME) then name else "<a href=\"" + name + "\">" + name + "</a><br />"
  }

  /** `appendStr`. */
  method AppendStr(content: Option<string>, toAdd: string) returns (r: string)
    ensures content.None? ==> r == toAdd
    ensures content.Some? ==> r == content.value + Entry(toAdd)
  {
    if content.None? {
      return toAdd;
    }
    var i := |toAdd| * 2 + |"<a href=\"\"></a><br />\n"| + 1;
    var link := Printed(Link(toAdd), i - 1);
    LinkLosesLineFeed(toAdd);
    var footer := Find(toAdd, SERVER_NAME, 0);
    FindGivesFirst(toAdd, SERVER_NAME, 0);
    r := content.value + if footer.Some? then toAdd else link;
  }

  /** The buffer is one byte too short for the line feed. */
  lemma LinkLosesLineFeed(name: string)
    ensures Printed(Link(name), |Link(name)|) == "<a href=\"" + name + "\">" + name + "</a><br />"
  {
  }

  function Heading(file: string): string {
    Printed("<html><head><title>Index of " + file + "</title></head>\n<body bgcolor=\"#99CC99\"><h3>Index of "
            + file + "</h3>\n<pre>\n", PAGE_BUFFER)
  }

  const FOOTER :=
    "</pre>\n<hr /><address><a href=\"" + SERVER_URL + "\">" + SERVER_NAME + "</a></address>\n</body></html>\n"

  function Entries(names: seq<string>): string {
    if names == [] then "" else Entries(names[..|names| - 1]) + Entry(names[|names| - 1])
  }

  /** The page: every name once, in the order of the directory, between heading and footer. */
  function Page(file: string, names: seq<string>): string {
    Heading(file) + Entries(names) + FOOTER
  }

  lemma FooterIsRaw()
    ensures Entry(FOOTER) == FOOTER && Printed(FOOTER, PAGE_BUFFER) == FOOTER
  {
    var at := |"</pre>\n<hr /><address><a href=\"" + SERVER_URL + "\">"|;
    assert FOOTER[at..at + |SERVER_NAME|] == SERVER_NAME;
    assert OccursAt(FOOTER, SERVER_NAME, at);
  }

  lemma OneMoreEntry(heading: string, names: seq<string>, k: nat)
    requires k < |names|
    ensures heading + Entries(names[..k]) + Entry(names[k]) == heading + Entries(names[..k + 1])
  {
    assert names[..k + 1][..k] == names[..k];
    Associates(heading, Entries(names[..k]), Entry(names[k]));
  }

  /** For every list of names, the size that is announced is the length of the page that is built. */
  method ListDirectory(file: string, names: seq<string>) returns (contents: string, size: int)
    ensures contents == Page(file, names) && size == |contents|
  {
    var buf := Heading(file);
    contents := AppendStr(None, buf);
    size := |buf|;
    for k := 0 to |names|
      invariant contents == buf + Entries(names[..k]) && size == |contents|
    {
      OneMoreEntry(buf, names, k);
      var before := |contents|;
      contents := AppendStr(Some(contents), names[k]);
      var after := |contents|;
      size := size + (after - before);
    }
    assert names[..|names|] == names;
    FooterIsRaw();
    var footer := Printed(FOOTER, PAGE_BUFFER);
    contents := AppendStr(Some(contents), footer);
    size := size + |footer|;
  }

  /** The page starts with its title, which names the directory, when that fits the buffer. */
  lemma PageNamesItsDirectory(file: string, names: seq<string>)
    ensures var heading := "<html><head><title>Index of " + file
                           + "</title></head>\n<body bgcolor=\"#99CC99\"><h3>Index of " + file + "</h3>\n<pre>\n";
      |heading| < 9_999 ==> heading <= Page(file, names)
  {
    assert Heading(file) <= Page(file, names) by {
      Associates(Heading(file), Entries(names), FOOTER);
    }
  }

  /** The page ends with the server's address. */
  lemma PageEndsWithAddress(file: string, names: seq<string>)
    ensures Page(file, names)
            == Heading(file) + Entries(names)
               + ("</pre>\n<hr /><address><a href=\"" + "http://www.magsolweb.net" + "\">" + "Squinn!"
                  + "</a></address>\n</body></html>\n")
  {
  }

  lemma FrontGrows(names: seq<string>, k: nat)
    requires k < |names|
    ensures Entries(names[..k + 1]) == Entries(names[..k]) + Entry(names[k])
  {
    assert names[..k + 1][..k] == names[..k];
  }

  lemma {:induction false} EntriesGrow(names: seq<string>, k: nat)
    requires k <= |names|
    ensures Entries(names[..k]) <= Entries(names)
    decreases |names| - k
  {
    if k == |names| {
      assert names[..k] == names;
    } else {
      EntriesGrow(names, k + 1);
      FrontGrows(names, k);
    }
  }

  /** Every name stands on the page, right behind the entries of the names before it, as a link or as it is. */
  lemma NameIsOnPage(file: string, names: seq<string>, k: nat)
    requires k < |names|
    ensures var entry := if Contains(names[k], "Squinn!") then names[k]
                         else "<a href=\"" + names[k] + "\">" + names[k] + "</a><br />";
      Heading(file) + Entries(names[..k]) + entry <= Page(file, names)
  {
    EntriesGrow(names, k + 1);
    FrontGrows(names, k);
    FrontOfPage(Heading(file), Entries(names[..k]), Entry(names[k]), Entries(names), FOOTER);
  }

  lemma FrontOfPage(heading: string, front: string, entry: string, entries: string, footer: string)
    requires front + entry <= entries
    ensures heading + front + entry <= heading + entries + footer
  {
    assert heading + front + entry == heading + (front + entry);
  }

  /** The response that carries the page. */
  function ListingResponse(file: string, names: seq<string>): Response {
    Response(200, "OK", "", "text/html", Page(file, names))
  }

  lemma ListingIsPrintable(file: string, names: seq<string>)
    requires |Page(file, names)| < INT_LIMIT
    ensures Printable(ListingResponse(file, names))
  {
    ShortIsLengthless("OK");
    ShortIsLengthless("");
    IntHasTenDigits(|Page(file, names)|);
  }

  /** Whoever fetches the listing gets exactly the page, however it is cut, whatever the names are. */
  lemma ListingRoundTrip(file: string, names: seq<string>, cuts: seq<nat>, breaks: bool)
    requires |Page(file, names)| < INT_LIMIT
    ensures var r := ListingResponse(file, names);
      FetchOf(Incoming(Message(r), cuts, breaks))
      == Fetched(PrintHeader(r) + Page(file, names), |PrintHeader(r)|, |Page(file, names)|)
  {
    ListingIsPrintable(file, names);
    ResponseRoundTrip(ListingResponse(file, names), cuts, breaks);
  }

  /** It is sent with status 200, as HTML. */
  lemma ListingIsHtml(file: string, names: seq<string>)
    requires |Page(file, names)| < INT_LIMIT
    ensures var header := PrintHeader(ListingResponse(file, names));
      HeaderFields.StatusOf(header) == Some(200) && HeaderFields.FieldOf(header, "\nContent-Type") == Some("text/html ")
  {
    var r := ListingResponse(file, names);
    ListingIsPrintable(file, names);
    LinesAreInline(r);
    assert |Digits(200)| == 3;
    ResponseFields.StatusComesBack(r);
    ResponseFields.TypeComesBack(r);
    assert "text/html" + " " == "text/html ";
  }
}
