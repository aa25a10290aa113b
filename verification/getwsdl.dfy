/** The WSDL fetcher (`wsdl/get_wsdl.py`): the address of a service's
    WSDL, the clean-up of pretty-printed XML before it is written, and the
    crawl over the schema types a document imports. The network and the
    XML library are parameters: a `World` says which schema locations a
    document imports, which type a location's query names, and what
    fetching a location returns. */
module GetWsdl {

  import opened Results
  import Text
  import Seqs

  /** `SERVICES`: the services the fetcher knows. */
  const Services: seq<string> := ["capture", "channel", "content", "dvr", "frontend", "guide", "myth", "video"]

  /** The path of a service's WSDL, `'{}/wsdl'.format(service.capitalize())`. */
  function WsdlPath(service: string): string
  {
    Text.Capitalize(service) + "/wsdl"
  }

  /** The number a string of decimal digits denotes. */
  function DigitsValue(s: string): nat
    requires forall i :: 0 <= i < |s| ==> '0' <= s[i] <= '9'
  {
    if |s| == 0 then 0
    else 10 * DigitsValue(s[..|s| - 1]) + (s[|s| - 1] as int - '0' as int)
  }

  /** `str(n)` for a port number: decimal digits that denote `n`, with no
      leading zero unless `n` is zero. */
  function Decimal(n: nat): (r: string)
    ensures |r| > 0
    ensures forall i :: 0 <= i < |r| ==> '0' <= r[i] <= '9'
    ensures DigitsValue(r) == n
    ensures r[0] != '0' || r == "0"
  {
    if n < 10 then [(n + '0' as int) as char]
    else
      var high := Decimal(n / 10);
      var r := high + [(n % 10 + '0' as int) as char];
      assert r[..|r| - 1] == high;
      r
  }

  /** `urlunparse(('http', '{domain}:{port}', path, None, None, None))`:
      the path gains a leading `/` after the network location. */
  function WsdlUrl(domain: string, port: nat, service: string): string
  {
    "http://" + domain + ":" + Decimal(port) + "/" + WsdlPath(service)
  }

  /** A port number's digits hold no `/`. */
  lemma DecimalAvoidsSlash(n: nat)
    ensures '/' !in Decimal(n)
  {
    var d := Decimal(n);
    forall k | 0 <= k < |d|
      ensures d[k] != '/'
    {
      assert '0' <= d[k] <= '9';
    }
  }

  /** Capitalising introduces no `/`. */
  lemma CapitalizeAvoidsSlash(service: string)
    requires '/' !in service
    ensures '/' !in Text.Capitalize(service)
  {
    var cap := Text.Capitalize(service);
    forall k | 0 <= k < |cap|
      ensures cap[k] != '/'
    {
      if k == 0 {
        assert cap[0] == Text.UpperChar(service[0]);
      } else {
        assert cap[k] == Text.Lower(service[1..])[k - 1];
        assert service[1..][k - 1] == service[k];
      }
    }
  }

  /** Splitting pieces free of `/` joined by `/` gives the pieces back. */
  lemma SplitFive(a: string, b: string, c: string, d: string, e: string)
    requires '/' !in a && '/' !in b && '/' !in c && '/' !in d && '/' !in e
    ensures Text.Split(a + ['/'] + (b + ['/'] + (c + ['/'] + (d + ['/'] + e))), '/') == [a, b, c, d, e]
  {
    var t4 := d + ['/'] + e;
    var t3 := c + ['/'] + t4;
    var t2 := b + ['/'] + t3;
    Text.SplitNoSeparator(e, '/');
    Text.SplitAfterPiece(d, '/', e);
    Text.SplitAfterPiece(c, '/', t4);
    Text.SplitAfterPiece(b, '/', t3);
    Text.SplitAfterPiece(a, '/', t2);
  }

  /** The path names the capitalised service and ends in `wsdl`, whatever
      the case the service was given in; the URL splits at `/` into the
      scheme, the empty piece of `//`, the network location, the service
      and `wsdl`. */
  lemma WsdlUrlParts(domain: string, port: nat, service: string)
    requires '/' !in domain && '/' !in service
    ensures WsdlPath(service) == WsdlPath(Text.Capitalize(service))
    ensures Text.Split(WsdlUrl(domain, port, service), '/') ==
      ["http:", "", domain + ":" + Decimal(port), Text.Capitalize(service), "wsdl"]
  {
    Text.CapitalizeIdempotent(service);
    var loc := domain + ":" + Decimal(port);
    var cap := Text.Capitalize(service);
    DecimalAvoidsSlash(port);
    assert '/' !in loc;
    CapitalizeAvoidsSlash(service);
    WsdlUrlPieces(domain, port, service);
    SplitFive("http:", "", loc, cap, "wsdl");
  }

  /** The URL is its five pieces joined by `/`. */
  lemma WsdlUrlPieces(domain: string, port: nat, service: string)
    ensures WsdlUrl(domain, port, service) ==
      "http:" + ['/'] + ("" + ['/'] + ((domain + ":" + Decimal(port)) + ['/'] + (Text.Capitalize(service) + ['/'] + "wsdl")))
  {
    JoinPieces(domain, Decimal(port), Text.Capitalize(service));
  }

  /** Regrouping the concatenation `WsdlUrl` builds. */
  lemma JoinPieces(domain: string, digits: string, cap: string)
    ensures "http://" + domain + ":" + digits + "/" + (cap + "/wsdl") ==
      "http:" + ['/'] + ("" + ['/'] + ((domain + ":" + digits) + ['/'] + (cap + ['/'] + "wsdl")))
  {
    assert "http://" == "http:" + ['/'] + ("" + ['/']);
    assert cap + "/wsdl" == cap + ['/'] + "wsdl";
  }

  /** The path of a service named in lower case is its name with the
      first letter upper-cased. */
  lemma LowerCasePath(service: string)
    requires |service| > 0 && forall i :: 0 <= i < |service| ==> !('A' <= service[i] <= 'Z')
    ensures WsdlPath(service) == [Text.UpperChar(service[0])] + service[1..] + "/wsdl"
  {
    assert Text.Lower(service[1..]) == service[1..];
  }

  /** Each known service's WSDL lives under its capitalised name. */
  lemma ServicePaths()
    ensures WsdlPath(Services[3]) == "Dvr/wsdl"
    ensures WsdlPath(Services[5]) == "Guide/wsdl"
  {
    LowerCasePath("dvr");
    LowerCasePath("guide");
  }

  /** `[l.rstrip() for l in lines]`. */
  function Stripped(lines: seq<string>): (r: seq<string>)
    ensures |r| == |lines|
    ensures forall i :: 0 <= i < |lines| ==>
      && r[i] <= lines[i]
      && (r[i] == "" || !Text.IsSpace(r[i][|r[i]| - 1]))
      && forall k :: |r[i]| <= k < |lines[i]| ==> Text.IsSpace(lines[i][k])
  {
    seq(|lines|, i requires 0 <= i < |lines| => Text.RStrip(lines[i]))
  }

  /** The test `filter(None, ...)` keeps a line by: it is not empty. */
  predicate NonEmpty(line: string)
  {
    line != ""
  }

  /** The lines `tidy_wsdl` writes: each line right-stripped, the empty
      ones dropped. */
  function KeptLines(lines: seq<string>): seq<string>
  {
    Seqs.Filter(Stripped(lines), NonEmpty)
  }

  /** `tidy_wsdl` over the lines of the pretty-printed document: the kept
      lines, each followed by a newline. */
  function TidyWsdl(lines: seq<string>): string
  {
    Text.Join(KeptLines(lines), "\n") + "\n"
  }

  /** No kept line is empty or ends in whitespace, and every line with
      visible text survives. */
  lemma KeptLinesClean(lines: seq<string>)
    ensures var kept := KeptLines(lines);
      (forall i :: 0 <= i < |kept| ==> kept[i] != "" && !Text.IsSpace(kept[i][|kept[i]| - 1])) &&
      (forall i :: 0 <= i < |lines| && Text.RStrip(lines[i]) != "" ==> Text.RStrip(lines[i]) in kept)
  {
    var st := Stripped(lines);
    Seqs.FilterMember(st, NonEmpty);
    var kept := KeptLines(lines);
    forall i | 0 <= i < |kept|
      ensures kept[i] != "" && !Text.IsSpace(kept[i][|kept[i]| - 1])
    {
      var j :| 0 <= j < |lines| && st[j] == kept[i];
    }
    forall i | 0 <= i < |lines| && Text.RStrip(lines[i]) != ""
      ensures Text.RStrip(lines[i]) in kept
    {
      assert st[i] == Text.RStrip(lines[i]);
    }
  }

  /** The kept lines are the right-stripped input lines that are not
      blank, each as often as it occurs, in input order: none is empty or
      ends in whitespace, and every line with visible text survives. */
  lemma KeptLinesSpec(lines: seq<string>)
    ensures var kept := KeptLines(lines);
      Seqs.IsSubsequence(kept, Stripped(lines)) &&
      (forall i :: 0 <= i < |kept| ==> kept[i] != "" && !Text.IsSpace(kept[i][|kept[i]| - 1])) &&
      (forall i :: 0 <= i < |lines| && Text.RStrip(lines[i]) != "" ==> Text.RStrip(lines[i]) in kept) &&
      (forall x :: multiset(kept)[x] == if x != "" then multiset(Stripped(lines))[x] else 0)
  {
    Seqs.FilterIsSubsequence(Stripped(lines), NonEmpty);
    Seqs.FilterMultiset(Stripped(lines), NonEmpty);
    KeptLinesClean(lines);
  }

  /** Right-stripping a line with no trailing whitespace changes nothing. */
  lemma RStripStripped(s: string)
    requires s == "" || !Text.IsSpace(s[|s| - 1])
    ensures Text.RStrip(s) == s
  {
  }

  /** Cleaning up already kept lines keeps them all, unchanged. */
  lemma KeptLinesIdempotent(lines: seq<string>)
    ensures KeptLines(KeptLines(lines)) == KeptLines(lines)
  {
    var kept := KeptLines(lines);
    KeptLinesSpec(lines);
    forall i | 0 <= i < |kept|
      ensures Stripped(kept)[i] == kept[i]
    {
      RStripStripped(kept[i]);
    }
    assert Stripped(kept) == kept;
    Seqs.FilterAll(kept, NonEmpty);
  }

  /** The output always ends in a newline; input with nothing but blank
      lines gives a lone newline. */
  lemma TidyWsdlEnds(lines: seq<string>)
    ensures var r := TidyWsdl(lines); |r| > 0 && r[|r| - 1] == '\n'
    ensures (forall i :: 0 <= i < |lines| ==> Text.RStrip(lines[i]) == "") ==> TidyWsdl(lines) == "\n"
  {
    if forall i :: 0 <= i < |lines| ==> Text.RStrip(lines[i]) == "" {
      Seqs.FilterNone(Stripped(lines), NonEmpty);
    }
  }

  /** Split back into lines, the output is exactly the kept lines (a lone
      newline reads as one empty line), provided no input line holds a
      line break, as holds for the lines `splitlines` returns. */
  lemma TidyWsdlLines(lines: seq<string>)
    requires forall i :: 0 <= i < |lines| ==> '\n' !in lines[i]
    ensures KeptLines(lines) != [] ==> Text.SplitLines(TidyWsdl(lines)) == KeptLines(lines)
    ensures KeptLines(lines) == [] ==> Text.SplitLines(TidyWsdl(lines)) == [""]
  {
    var kept := KeptLines(lines);
    Seqs.FilterMember(Stripped(lines), NonEmpty);
    forall i | 0 <= i < |kept|
      ensures '\n' !in kept[i]
    {
      var j :| 0 <= j < |lines| && Stripped(lines)[j] == kept[i];
      assert kept[i] <= lines[j];
    }
    var joined := Text.Join(kept, "\n");
    Text.SplitConcat(joined, '\n', "");
    assert TidyWsdl(lines) == joined + ['\n'] + "";
    if kept != [] {
      Text.SplitJoin(kept, '\n');
      assert (kept + [""])[..|kept|] == kept;
    } else {
      assert Text.Split("", '\n') == [""];
    }
  }

  /** Tidying the lines of tidied output reproduces it. */
  lemma TidyWsdlIdempotent(lines: seq<string>)
    requires forall i :: 0 <= i < |lines| ==> '\n' !in lines[i]
    ensures TidyWsdl(Text.SplitLines(TidyWsdl(lines))) == TidyWsdl(lines)
  {
    TidyWsdlLines(lines);
    if KeptLines(lines) != [] {
      KeptLinesIdempotent(lines);
    } else {
      assert Stripped([""]) == [""];
      assert KeptLines([""]) == [];
    }
  }

  /** What the crawl sees of the outside world. `imports` lists, in order,
      the `schemaLocation` attribute of each of a document's `xs:import` and
      `xs:include` elements, `None` for an element without one; `typeOf` is the first `type` value of a location's
      query, `None` when the query has none; `fetch` is `get_xml_for_url`,
      `None` where it raises. */
  datatype World<!D> = World(
    imports: D -> seq<Option<string>>,
    typeOf: string -> Option<string>,
    fetch: string -> Option<D>)

  /** The type a location contributes to `urls_parsed`: a location whose
      query names no type, or an empty one, is dropped. */
  function TypeOfUrl<D>(w: World<D>, url: string): Option<string>
  {
    match w.typeOf(url)
    case Some(t) => if t != "" then Some(t) else None
    case None => None
  }

  /** The dictionary `get_types` returns and the `found_types` set it has
      grown. */
  datatype Crawl<D> = Crawl(types: map<string, D>, found: set<string>)

  /** Some location names type `t` and fetches document `d`. */
  ghost predicate Fetched<D>(w: World<D>, t: string, d: D)
  {
    exists url :: TypeOfUrl(w, url) == Some(t) && w.fetch(url) == Some(d)
  }

  /** The common contract of a crawl from `found`: the set only grows, the
      types returned are exactly the ones newly found, and each came from a
      successful fetch of a location naming it. */
  ghost predicate CrawlFrom<D>(w: World<D>, found: set<string>, c: Crawl<D>)
  {
    && found <= c.found
    && c.types.Keys == c.found - found
    && forall t | t in c.types :: Fetched(w, t, c.types[t])
  }

  /** `[t.attributes['schemaLocation'].value for t in type_imports]`: the
      locations in order, or `KeyError` when an element has none. */
  function Locations(attrs: seq<Option<string>>): (r: Result<seq<string>>)
    ensures r.Success? <==> forall i :: 0 <= i < |attrs| ==> attrs[i].Some?
    ensures r.Success? ==> |r.value| == |attrs| && forall i :: 0 <= i < |attrs| ==> Some(r.value[i]) == attrs[i]
    ensures r.Failure? ==> r.error == KeyNotFound("schemaLocation")
  {
    if |attrs| == 0 then Success([])
    else
      match attrs[0]
      case None => Failure(KeyNotFound("schemaLocation"))
      case Some(url) =>
        var rest :- Locations(attrs[1..]);
        assert forall i :: 1 <= i < |attrs| ==> attrs[i] == attrs[1..][i - 1];
        Success([url] + rest)
  }

  /** `get_types(xml, found_types)`: crawls the locations `doc` imports, or
      raises `KeyError` before fetching anything when an import has no
      location. `fuel` bounds the depth of nested documents, standing in
      for Python's recursion limit. */
  function GetTypes<D>(w: World<D>, doc: D, found: set<string>, fuel: nat): (r: Result<Crawl<D>>)
    ensures r.Success? ==> CrawlFrom(w, found, r.value)
    ensures (exists i :: 0 <= i < |w.imports(doc)| && w.imports(doc)[i].None?) ==>
      r == Failure(KeyNotFound("schemaLocation"))
    decreases fuel, 1
  {
    var urls :- Locations(w.imports(doc));
    FetchAll(w, urls, found, fuel)
  }

  /** The loop of `get_types` over the remaining locations: a location
      naming no type or an already found type is skipped; a failed fetch is
      reported and skipped; a fetched document's type is recorded before
      the types it imports are crawled with the same set. */
  function FetchAll<D>(w: World<D>, urls: seq<string>, found: set<string>, fuel: nat): (r: Result<Crawl<D>>)
    ensures r.Success? ==> CrawlFrom(w, found, r.value)
    ensures r.Success? ==> forall i :: 0 <= i < |urls| && TypeOfUrl(w, urls[i]).Some? && w.fetch(urls[i]).Some? ==>
      TypeOfUrl(w, urls[i]).value in r.value.found
    decreases fuel, 0, |urls|
  {
    if |urls| == 0 then Success(Crawl(map[], found))
    else
      var url := urls[0];
      match TypeOfUrl(w, url)
      case None => FetchAll(w, urls[1..], found, fuel)
      case Some(t) =>
        if t in found then FetchAll(w, urls[1..], found, fuel)
        else
          match w.fetch(url)
          case None => FetchAll(w, urls[1..], found, fuel)
          case Some(d) =>
            if fuel == 0 then Failure(RecursionLimit)
            else
              var sub :- GetTypes(w, d, found + {t}, fuel - 1);
              var rest :- FetchAll(w, urls[1..], sub.found, fuel);
              assert Fetched(w, t, d);
              Success(Crawl(map[t := d] + sub.types + rest.types, rest.found))
  }

  /** A crawl with every named type already found fetches nothing:
      the result is empty and the set unchanged. */
  lemma {:induction false} NothingNewNoFetch<D>(w: World<D>, urls: seq<string>, found: set<string>, fuel: nat)
    requires forall i :: 0 <= i < |urls| ==> TypeOfUrl(w, urls[i]).None? || TypeOfUrl(w, urls[i]).value in found
    ensures FetchAll(w, urls, found, fuel) == Success(Crawl(map[], found))
  {
    if |urls| > 0 {
      assert forall i :: 0 <= i < |urls| - 1 ==> urls[1..][i] == urls[i + 1];
      NothingNewNoFetch(w, urls[1..], found, fuel);
    }
  }

  /** A document whose imports all carry a location, none of which names a
      type, yields nothing. */
  lemma NoTypedImports<D>(w: World<D>, doc: D, found: set<string>, fuel: nat)
    requires forall i :: 0 <= i < |w.imports(doc)| ==>
      w.imports(doc)[i].Some? && TypeOfUrl(w, w.imports(doc)[i].value).None?
    ensures GetTypes(w, doc, found, fuel) == Success(Crawl(map[], found))
  {
    var urls := Locations(w.imports(doc)).value;
    NothingNewNoFetch(w, urls, found, fuel);
  }

  /** A location whose fetch fails adds nothing of its own: skipping it
      gives the same crawl. */
  lemma FailedFetchSkipped<D>(w: World<D>, url: string, urls: seq<string>, found: set<string>, fuel: nat)
    requires w.fetch(url).None?
    ensures FetchAll(w, [url] + urls, found, fuel) == FetchAll(w, urls, found, fuel)
  {
    assert ([url] + urls)[0] == url && ([url] + urls)[1..] == urls;
  }
}
