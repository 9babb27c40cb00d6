/** The helpers of the older `aiorequests` package: turning a message
    argument into the messages it stands for, formatting a request as a
    log line, and checking that optional modules are installed. */
module LogFormat {
  import opened Wrappers
  import opened Text
  import opened Http
  import opened Json

  /** What `get_iterator` may be given: an iterator (its remaining items),
      a string, or anything else (a list, a mapping, a number…). A string
      is always `Text`: `Other` never carries a `Str`. */
  datatype MessageArg = Iterator(items: seq<Value>) | Text(s: string) | Other(v: Value)

  /** The argument is classified as `get_iterator` sees it. */
  predicate Classified(arg: MessageArg)
  {
    arg.Other? ==> !arg.v.Str?
  }

  /** A value that is not an iterator, as `get_iterator` tells it apart:
      a string, or something else. */
  function Classify(v: Value): (arg: MessageArg)
    ensures Classified(arg) && !arg.Iterator?
    ensures arg.Text? <==> v.Str?
  {
    match v
    case Str(s) => Text(s)
    case _ => Other(v)
  }

  /** Of the values that are not iterators, exactly the strings give a
      message, and that message is the string itself. */
  lemma ClassifyMessages(v: Value)
    ensures GetIterator(Classify(v)) == if v.Str? then [v] else []
  {
  }

  /** `get_iterator`: an iterator is passed through, a string is one
      message, anything else is no message at all. */
  function GetIterator(arg: MessageArg): (r: seq<Value>)
    ensures arg.Iterator? ==> r == arg.items
    ensures arg.Text? ==> r == [Str(arg.s)]
    ensures arg.Other? ==> r == []
  {
    match arg
    case Iterator(items) => items
    case Text(s) => [Str(s)]
    case Other(_) => []
  }

  const UrlPads: seq<nat> := [30, 40, 70, 100]
  const MethodWidth: nat := 7
  const Separator: string := " | "

  /** The width of the URL column: the first pad longer than the URL, or
      the last pad when none is. */
  function UrlPad(n: nat): (r: nat)
    ensures r in UrlPads
    ensures n < r || r == UrlPads[|UrlPads| - 1]
    ensures forall i :: 0 <= i < |UrlPads| && UrlPads[i] < r ==> UrlPads[i] <= n
  {
    if n < 30 then 30 else if n < 40 then 40 else if n < 70 then 70 else 100
  }

  /** The position of the first `c` in `s`, or `|s|` when there is none. */
  function IndexOf(s: string, c: char): (k: nat)
    ensures k <= |s| && c !in s[..k]
    ensures k < |s| ==> s[k] == c
    decreases |s|
  {
    if |s| == 0 then 0
    else if s[0] == c then 0
    else
      var k := IndexOf(s[1..], c);
      assert s[..k + 1] == [s[0]] + s[1..][..k];
      k + 1
  }

  /** `str(url.with_query(None))`: the query, from `?` up to the fragment,
      is dropped; the fragment stays. */
  function WithoutQuery(url: string): (r: string)
  {
    var f := IndexOf(url, '#');
    var base := url[..f];
    base[..IndexOf(base, '?')] + url[f..]
  }

  /** What is left has no query: no `?` before its fragment, and it is the
      URL's text up to the query followed by the fragment. */
  lemma WithoutQueryHasNoQuery(url: string)
    ensures var r := WithoutQuery(url);
      '?' !in r[..IndexOf(r, '#')]
    ensures '?' !in url ==> WithoutQuery(url) == url
  {
    var f := IndexOf(url, '#');
    var base := url[..f];
    var q := IndexOf(base, '?');
    var r := WithoutQuery(url);
    assert r == base[..q] + url[f..];
    assert '#' !in base[..q] by {
      forall i | 0 <= i < q ensures base[..q][i] != '#' {
        assert base[..q][i] == url[..f][i];
      }
    }
    IndexAfterPrefix(base[..q], url[f..], '#');
    if '?' !in url {
      assert '?' !in base by {
        forall i | 0 <= i < |base| ensures base[i] != '?' {
          assert base[i] == url[i];
        }
      }
      assert q == |base|;
      assert base + url[f..] == url;
    }
  }

  /** A `c` after a prefix without one: the first `c` is past the prefix. */
  lemma {:induction false} IndexAfterPrefix(a: string, b: string, c: char)
    requires c !in a
    ensures IndexOf(a + b, c) == |a| + IndexOf(b, c)
    decreases |a|
  {
    if |a| > 0 {
      assert (a + b)[0] == a[0] != c;
      assert (a + b)[1..] == a[1..] + b;
      assert c !in a[1..];
      IndexAfterPrefix(a[1..], b, c);
      assert IndexOf(a + b, c) == IndexOf((a + b)[1..], c) + 1;
    } else {
      assert a + b == b;
    }
  }

  /** Dropping the query twice is dropping it once. */
  lemma WithoutQueryIdempotent(url: string)
    ensures WithoutQuery(WithoutQuery(url)) == WithoutQuery(url)
  {
    var f := IndexOf(url, '#');
    var base := url[..f];
    var q := IndexOf(base, '?');
    var head := base[..q];
    var tail := url[f..];
    assert c1: '#' !in head by {
      forall i | 0 <= i < q ensures head[i] != '#' {
        assert head[i] == url[..f][i];
      }
    }
    IndexAfterPrefix(head, tail, '#');
    var r := head + tail;
    assert f == |url| || tail[0] == '#';
    assert IndexOf(tail, '#') == 0;
    var f2 := IndexOf(r, '#');
    assert f2 == |head|;
    assert r[..f2] == head;
    WithoutQueryHasNoQuery(url);
    assert '?' !in head;
    assert IndexOf(head, '?') == |head| by { NoIndex(head, '?'); }
    assert r[f2..] == tail;
  }

  lemma {:induction false} NoIndex(s: string, c: char)
    requires c !in s
    ensures IndexOf(s, c) == |s|
    decreases |s|
  {
    if |s| > 0 {
      assert c !in s[1..];
      NoIndex(s[1..], c);
    }
  }

  /** The messages as `str()` prints each. */
  function MessageTexts(messages: MessageArg): (texts: seq<string>)
    ensures |texts| == |GetIterator(messages)|
  {
    var items := GetIterator(messages);
    seq(|items|, i requires 0 <= i < |items| => StrOf(items[i]))
  }

  /** A log line from its parts. */
  function Line(name: string, u: string, texts: seq<string>): string
  {
    LJust(name, MethodWidth) + ": " + LJust(u, UrlPad(|u|)) + Separator + Join(Separator, texts)
  }

  /** `format_url_log(method, url, messages)`. */
  function FormatUrlLog(m: Method, url: Url, messages: MessageArg): (line: string)
  {
    Line(MethodName(m), WithoutQuery(url.text), MessageTexts(messages))
  }

  function Max(a: nat, b: nat): nat
  {
    if a < b then b else a
  }

  lemma MiddleSlice(x: string, y: string, z: string, i: nat, j: nat)
    requires i <= j <= |y|
    ensures (x + y + z)[|x| + i..|x| + j] == y[i..j]
  {
  }

  /** The columns of a line: the name padded to seven characters, `: `,
      the URL padded to its column width and never cut, ` | `, and the
      joined messages. */
  lemma {:induction false} LineColumns(name: string, u: string, texts: seq<string>)
    ensures var line := Line(name, u, texts);
      var w1 := Max(|name|, MethodWidth);
      var w2 := Max(|u|, UrlPad(|u|));
      && |line| == w1 + 2 + w2 + 3 + |Join(Separator, texts)|
      && line[..|name|] == name
      && (forall i :: |name| <= i < w1 ==> line[i] == ' ')
      && line[w1..w1 + 2] == ": "
      && line[w1 + 2..w1 + 2 + |u|] == u
      && (forall i :: w1 + 2 + |u| <= i < w1 + 2 + w2 ==> line[i] == ' ')
      && line[w1 + 2 + w2..w1 + 2 + w2 + 3] == Separator
      && line[w1 + 2 + w2 + 3..] == Join(Separator, texts)
  {
    var a := LJust(name, MethodWidth);
    var b := LJust(u, UrlPad(|u|));
    var j := Join(Separator, texts);
    var line := Line(name, u, texts);
    assert line == a + ": " + b + Separator + j;
    assert line == [] + a + (": " + b + Separator + j);
    MiddleSlice([], a, ": " + b + Separator + j, 0, |name|);
    assert forall i :: |name| <= i < |a| ==> line[i] == a[i];
    assert line == a + ": " + (b + Separator + j);
    MiddleSlice(a, ": ", b + Separator + j, 0, 2);
    assert line == (a + ": ") + b + (Separator + j);
    MiddleSlice(a + ": ", b, Separator + j, 0, |u|);
    assert forall i :: |a| + 2 + |u| <= i < |a| + 2 + |b| ==> line[i] == b[i - |a| - 2];
    assert line == (a + ": " + b) + Separator + j;
    MiddleSlice(a + ": " + b, Separator, j, 0, 3);
    assert line[|a| + 2 + |b| + 3..] == j;
  }

  /** Every method name fits the seven-character column. */
  lemma MethodNameFits(m: Method)
    ensures |MethodName(m)| <= MethodWidth
  {
  }

  /** A request's log line: the method name in a seven-character column,
      the URL without its query in its padded column, then the
      messages. */
  lemma FormatUrlLogColumns(m: Method, url: Url, messages: MessageArg)
    ensures var line := FormatUrlLog(m, url, messages);
      var name := MethodName(m);
      var u := WithoutQuery(url.text);
      var w := Max(|u|, UrlPad(|u|));
      && line[..|name|] == name
      && (forall i :: |name| <= i < MethodWidth ==> line[i] == ' ')
      && line[MethodWidth..MethodWidth + 2] == ": "
      && line[MethodWidth + 2..MethodWidth + 2 + |u|] == u
      && (forall i :: MethodWidth + 2 + |u| <= i < MethodWidth + 2 + w ==> line[i] == ' ')
      && line[MethodWidth + 2 + w..MethodWidth + 5 + w] == Separator
      && line[MethodWidth + 5 + w..] == Join(Separator, MessageTexts(messages))
  {
    MethodNameFits(m);
    LineColumns(MethodName(m), WithoutQuery(url.text), MessageTexts(messages));
  }

  /** The messages part: nothing for a non-iterator, the string itself for
      a string, and each iterator item as `str()` prints it, joined. */
  lemma FormatUrlLogMessages(m: Method, url: Url, messages: MessageArg)
    ensures var u := WithoutQuery(url.text);
      var head := LJust(MethodName(m), MethodWidth) + ": " + LJust(u, UrlPad(|u|)) + Separator;
      var line := FormatUrlLog(m, url, messages);
      && (messages.Other? ==> line == head)
      && (messages.Text? ==> line == head + messages.s)
      && (messages.Iterator? && |messages.items| == 1 ==> line == head + StrOf(messages.items[0]))
  {
  }

  /** Who asks `required_modules_installed`: nobody, a named operation, or
      an object of some class. */
  datatype Requester = Nobody | Operation(name: string) | Instance(className: string)

  datatype ImportError = ImportError(message: string)

  /** `required_modules_installed(modules, this)`: whether every module is
      present (`present[i]` for module `i`); missing modules raise only
      when somebody asked (`this`). `names` are the names of the missing modules. */
  function RequiredModulesInstalled(present: seq<bool>, requester: Requester, names: seq<string>): (r: Result<bool, ImportError>)
    ensures r.Ok? <==> requester.Nobody? || forall i :: 0 <= i < |present| ==> present[i]
    ensures r.Ok? ==> (r.value <==> forall i :: 0 <= i < |present| ==> present[i])
    ensures requester.Operation? && r.Err? ==> StartsWith(r.error.message, "Cannot run " + requester.name)
    ensures requester.Instance? && r.Err? ==> StartsWith(r.error.message, "Cannot create " + requester.className + " object")
  {
    var installed := forall i :: 0 <= i < |present| ==> present[i];
    if !installed && !requester.Nobody? then
      var required := ". Required modules: " + Join(", ", names);
      var message := match requester
        case Operation(name) => "Cannot run " + name + required
        case Instance(cls) => "Cannot create " + cls + " object" + required;
      assert (match requester case Operation(name) => "Cannot run " + name case Instance(cls) => "Cannot create " + cls + " object") + required == message;
      Err(ImportError(message))
    else Ok(installed)
  }
}
