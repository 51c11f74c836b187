/** The INI store as an object over a disk, and what its file holds after any history of calls. */
module IniFiles {
  import opened IniStore

  class Disk {
    var files: map<string, string>
    constructor (files: map<string, string>)
      ensures this.files == files
    {
      this.files := files;
    }
  }

  // ----- specification: stores and histories -----

  datatype Store = Store(filename: string, dict: Dict, files: map<string, string>)

  /** `opens` says whether the file can be opened for writing at that moment. */
  datatype Op = LoadFrom(name: string) | SetValue(key: string, value: string, opens: bool) | ClearAll(opens: bool)

  function Content(files: map<string, string>, name: string): string
  {
    if name in files then files[name] else ""
  }

  function RemoveQuotes(s: string): string
  {
    if s == "" then "" else (if s[0] == '"' then "" else [s[0]]) + RemoveQuotes(s[1..])
  }

  /** Quotes go and nothing else: text without one is kept, up to the first and then beyond it. */
  lemma {:induction false} QuotesRemoved(a: string, b: string)
    requires '"' !in a
    ensures RemoveQuotes(a) == a && RemoveQuotes(a + "\"" + b) == a + RemoveQuotes(b)
    decreases |a|
  {
    var s := a + "\"" + b;
    if a == "" {
      assert s[0] == '"' && s[1..] == b;
    } else {
      assert s[0] == a[0] && s[1..] == a[1..] + "\"" + b;
      QuotesRemoved(a[1..], b);
      assert [a[0]] + a[1..] == a;
      assert [a[0]] + (a[1..] + RemoveQuotes(b)) == a + RemoveQuotes(b);
    }
  }

  ghost function Flushed(s: Store, opens: bool): Store
  {
    if opens && s.filename != "" then s.(files := s.files[s.filename := Text(s.dict)]) else s
  }

  ghost function Apply(s: Store, op: Op): Store
  {
    match op
    case LoadFrom(name) =>
      var f := RemoveQuotes(name);
      s.(filename := f, dict := Load(Content(s.files, f)))
    case SetValue(k, v, opens) =>
      if s.filename == "" then s else Flushed(s.(dict := s.dict[k := v]), opens)
    case ClearAll(opens) => Flushed(s.(dict := map[]), opens)
  }

  ghost function Run(s: Store, h: seq<Op>): Store
  {
    if h == [] then s else Apply(Run(s, h[..|h| - 1]), h[|h| - 1])
  }

  /** The file on disk parses to exactly what is in memory. A nameless file never exists. */
  ghost predicate Synced(s: Store)
  {
    "" !in s.files && s.dict == Load(Content(s.files, s.filename))
  }

  lemma LoadNothing()
    ensures Load("") == map[]
  {
  }

  /** Exactly when a set leaves disk and memory agreeing. */
  lemma SetKeepsSync(s: Store, k: string, v: string, opens: bool)
    requires Synced(s)
    ensures Synced(Apply(s, SetValue(k, v, opens))) <==>
            || s.filename == ""
            || (opens && CleanKey(k) && CleanValue(v))
            || (!opens && k in s.dict && s.dict[k] == v)
  {
    LoadIsClean(Content(s.files, s.filename));
    if s.filename != "" {
      var d := s.dict[k := v];
      LoadText(d);
      assert Clean(d) <==> CleanKey(k) && CleanValue(v) by {
        assert k in d && d[k] == v;
      }
      if !opens {
        assert d == s.dict <==> k in s.dict && s.dict[k] == v by {
          if d == s.dict {
            assert k in d && d[k] == v;
          }
        }
      }
    }
  }

  lemma ClearKeepsSync(s: Store, opens: bool)
    requires Synced(s)
    ensures Synced(Apply(s, ClearAll(opens))) <==> opens || s.dict == map[]
  {
    LoadNothing();
    var none: Dict := map[];
    LoadText(none);
  }

  /** Every open for writing succeeds, keys hold no `=` or newline and values no newline. */
  ghost predicate Orderly(h: seq<Op>)
  {
    forall i :: 0 <= i < |h| ==>
      match h[i]
      case LoadFrom(_) => true
      case SetValue(k, v, opens) => opens && CleanKey(k) && CleanValue(v)
      case ClearAll(opens) => opens
  }

  /** After any orderly history the file parses to exactly the dictionary in memory. */
  lemma {:induction false} HistoryInSync(s: Store, h: seq<Op>)
    requires Synced(s) && Orderly(h)
    ensures Synced(Run(s, h))
    decreases |h|
  {
    if h != [] {
      var n := |h| - 1;
      var before := Run(s, h[..n]);
      HistoryInSync(s, h[..n]);
      match h[n]
      case LoadFrom(_) =>
      case SetValue(k, v, opens) => SetKeepsSync(before, k, v, opens);
      case ClearAll(opens) => ClearKeepsSync(before, opens);
    }
  }

  datatype Lookup = Absent | Found(value: string)

  function Get(d: Dict, k: string): Lookup { if k in d then Found(d[k]) else Absent }

  // ----- what a history leaves behind -----

  /** The file in use after a history, by the history alone. */
  function InUse(first: string, h: seq<Op>): string
  {
    if h == [] then first
    else
      match h[|h| - 1]
      case LoadFrom(name) => RemoveQuotes(name)
      case _ => InUse(first, h[..|h| - 1])
  }

  lemma {:induction false} FilenameIsInUse(s: Store, h: seq<Op>)
    ensures Run(s, h).filename == InUse(s.filename, h)
    decreases |h|
  {
    if h != [] {
      FilenameIsInUse(s, h[..|h| - 1]);
    }
  }

  /** What a history makes of a key in memory: set, cleared, or found in the file loaded last. */
  ghost function Held(s: Store, h: seq<Op>, k: string): Lookup
    decreases |h|
  {
    if h == [] then Get(s.dict, k)
    else
      var before := h[..|h| - 1];
      match h[|h| - 1]
      case LoadFrom(name) => Kept(s, before, RemoveQuotes(name), k)
      case SetValue(key, v, _) =>
        if key == k && InUse(s.filename, before) != "" then Found(v) else Held(s, before, k)
      case ClearAll(_) => Absent
  }

  /** What a history makes of a key in a file: what was in memory when that file was last written. */
  ghost function Kept(s: Store, h: seq<Op>, f: string, k: string): Lookup
    decreases |h|
  {
    if h == [] then Get(Load(Content(s.files, f)), k)
    else
      var before, op := h[..|h| - 1], h[|h| - 1];
      if !op.LoadFrom? && op.opens && f != "" && InUse(s.filename, before) == f then
        match op
        case SetValue(key, v, _) => if key == k then Found(v) else Held(s, before, k)
        case ClearAll(_) => Absent
      else Kept(s, before, f, k)
  }

  /** Keys hold no `=` or newline and values no newline. */
  ghost predicate CleanOps(h: seq<Op>)
  {
    forall i :: 0 <= i < |h| && h[i].SetValue? ==> CleanKey(h[i].key) && CleanValue(h[i].value)
  }

  lemma {:induction false} MemoryIsClean(s: Store, h: seq<Op>)
    requires Clean(s.dict) && CleanOps(h)
    ensures Clean(Run(s, h).dict)
    decreases |h|
  {
    if h != [] {
      var n := |h| - 1;
      MemoryIsClean(s, h[..n]);
      if h[n].LoadFrom? {
        LoadIsClean(Content(Run(s, h[..n]).files, RemoveQuotes(h[n].name)));
      }
    }
  }

  /** One operation on a key in memory. */
  lemma {:induction false} StepHeld(s: Store, op: Op, k: string)
    ensures Get(Apply(s, op).dict, k) ==
            match op
            case LoadFrom(name) => Get(Load(Content(s.files, RemoveQuotes(name))), k)
            case SetValue(key, v, _) => if key == k && s.filename != "" then Found(v) else Get(s.dict, k)
            case ClearAll(_) => Absent
  {
    hide Load;
    hide Text;
    hide RemoveQuotes;
  }

  ghost predicate Writes(op: Op, filename: string, f: string) { !op.LoadFrom? && op.opens && f != "" && filename == f }

  /** And on a key in a file. */
  lemma {:induction false} StepKept(s: Store, op: Op, f: string, k: string)
    requires Clean(Apply(s, op).dict)
    ensures Get(Load(Content(Apply(s, op).files, f)), k) ==
            if Writes(op, s.filename, f) then Get(Apply(s, op).dict, k) else Get(Load(Content(s.files, f)), k)
  {
    hide Load;
    hide Text;
    hide Clean;
    hide RemoveQuotes;
    LoadText(Apply(s, op).dict);
    if !Writes(op, s.filename, f) {
      assert Content(Apply(s, op).files, f) == Content(s.files, f);
    }
  }

  /**
  For every history of loads of any files, sets and clears, whichever writes succeed, and
  every file and key: memory and disk are what the history says.
  */
  lemma {:induction false} HistoryDecides(s: Store, h: seq<Op>, f: string, k: string)
    requires Clean(s.dict) && CleanOps(h)
    ensures Get(Run(s, h).dict, k) == Held(s, h, k)
    ensures Get(Load(Content(Run(s, h).files, f)), k) == Kept(s, h, f, k)
    decreases |h|
  {
    hide Load;
    hide Clean;
    hide Apply;
    hide Content;
    hide RemoveQuotes;
    hide Get;
    if h != [] {
      var n := |h| - 1;
      var op, before := h[n], Run(s, h[..n]);
      HistoryDecides(s, h[..n], f, k);
      FilenameIsInUse(s, h[..n]);
      MemoryIsClean(s, h);
      StepHeld(before, op, k);
      StepKept(before, op, f, k);
      if op.LoadFrom? {
        HistoryDecides(s, h[..n], RemoveQuotes(op.name), k);
      }
    }
  }

  /** The value last given to a key while a file was in use, or else what the file had first. */
  function LastGiven(first: string, h: seq<Op>, f: string, k: string, found: Lookup): Lookup
  {
    if h == [] then found
    else
      var before := h[..|h| - 1];
      if h[|h| - 1].LoadFrom? || InUse(first, before) != f then LastGiven(first, before, f, k, found)
      else
        match h[|h| - 1]
        case SetValue(key, v, _) => if key == k then Found(v) else LastGiven(first, before, f, k, found)
        case ClearAll(_) => Absent
  }

  /**
  Use any files in any orderly way, and open one again: every key has the value last given to
  it while that file was in use, or the one first found in it, or none if it was cleared.
  */
  lemma {:induction false} ReopenReturnsLastGiven(s: Store, h: seq<Op>, name: string, k: string)
    requires Synced(s) && Orderly(h) && RemoveQuotes(name) != ""
    ensures var f := RemoveQuotes(name);
            Get(Apply(Run(s, h), LoadFrom(name)).dict, k) ==
            LastGiven(s.filename, h, f, k, Get(Load(Content(s.files, f)), k))
    decreases |h|
  {
    hide Load;
    hide Apply;
    hide Content;
    hide RemoveQuotes;
    hide Get;
    var f := RemoveQuotes(name);
    StepHeld(Run(s, h), LoadFrom(name), k);
    if h != [] {
      var n := |h| - 1;
      var op, before := h[n], Run(s, h[..n]);
      ReopenReturnsLastGiven(s, h[..n], name, k);
      StepHeld(before, LoadFrom(name), k);
      FilenameIsInUse(s, h[..n]);
      HistoryInSync(s, h[..n]);
      HistoryInSync(s, h);
      SyncedIsClean(Run(s, h));
      StepHeld(before, op, k);
      StepKept(before, op, f, k);
    }
  }

  lemma SyncedIsClean(s: Store)
    requires Synced(s)
    ensures Clean(s.dict)
  {
    LoadIsClean(Content(s.files, s.filename));
  }

  // ----- the class -----

  method StripQuotes(name: string) returns (r: string)
    ensures r == RemoveQuotes(name)
  {
    r := "";
    var i := 0;
    assert name[0..] == name;
    while i < |name|
      invariant 0 <= i <= |name|
      invariant RemoveQuotes(name) == r + RemoveQuotes(name[i..])
    {
      ghost var tail := RemoveQuotes(name[i + 1..]);
      assert name[i..][0] == name[i] && name[i..][1..] == name[i + 1..];
      assert RemoveQuotes(name[i..]) == (if name[i] == '"' then "" else [name[i]]) + tail;
      assert r + ([name[i]] + tail) == r + [name[i]] + tail && "" + tail == tail;
      if name[i] != '"' {
        r := r + [name[i]];
      }
      i := i + 1;
    }
  }

  /** The loop over lines. */
  method ReadDict(content: string) returns (d: Dict)
    ensures d == Load(content)
  {
    hide Lines;
    hide PutAll;
    d := map[];
    var rest := content;
    while rest != ""
      invariant PutAll(d, Lines(rest)) == Load(content)
      decreases |rest|
    {
      var line := rest[..Find(rest, '\n')];
      LinesFirst(rest);
      PutAllFirst(d, line, Lines(Tail(rest)));
      var splitter := Find(line, '=');
      if splitter < |line| {
        d := d[line[..splitter] := line[splitter + 1..]];
      }
      rest := Tail(rest);
    }
    NoLines(d);
  }

  lemma LinesFirst(s: string)
    requires s != ""
    ensures Lines(s) == [s[..Find(s, '\n')]] + Lines(Tail(s))
  {
  }

  lemma NoLines(d: Dict)
    ensures PutAll(d, Lines("")) == d
  {
  }

  class IniFile {
    var filename: string
    var dict: Dict
    const disk: Disk

    ghost function Abstract(): Store
      reads this, disk
    {
      Store(filename, dict, disk.files)
    }

    constructor (disk: Disk)
      ensures this.disk == disk && filename == "" && dict == map[]
    {
      this.disk := disk;
      filename := "";
      dict := map[];
    }

    method LoadFile(name: string) returns (ok: bool)
      modifies this
      ensures Abstract() == Apply(old(Abstract()), LoadFrom(name))
      ensures ok <==> filename in disk.files
    {
      hide Load;
      filename := StripQuotes(name);
      dict := map[];
      if filename !in disk.files {
        LoadNothing();
        return false;
      }
      dict := ReadDict(disk.files[filename]);
      return true;
    }

    method Value(key: string, defaultValue: string) returns (v: string)
      ensures v == match Get(dict, key) case Found(x) => x case Absent => defaultValue
    {
      v := if key in dict then dict[key] else defaultValue;
    }

    method Set(key: string, value: string, opens: bool) returns (ok: bool)
      modifies this, disk
      ensures Abstract() == Apply(old(Abstract()), SetValue(key, value, opens))
      ensures ok <==> old(filename) != "" && opens
    {
      if filename == "" {
        return false;
      }
      dict := dict[key := value];
      ok := Flush(opens);
    }

    method Clear(opens: bool) returns (ok: bool)
      modifies this, disk
      ensures Abstract() == Apply(old(Abstract()), ClearAll(opens))
      ensures ok <==> old(filename) != "" && opens
    {
      dict := map[];
      ok := Flush(opens);
    }

    /** Rewrites the whole file, keys in increasing order. */
    method Flush(opens: bool) returns (ok: bool)
      modifies disk
      ensures Abstract() == Flushed(old(Abstract()), opens)
      ensures ok <==> filename != "" && opens
    {
      if filename == "" || !opens {
        return false;
      }
      var rest, text := dict.Keys, "";
      while rest != {}
        invariant rest <= dict.Keys
        invariant Text(dict) == text + TextOf(dict, rest) && disk.files == old(disk.files)
        decreases |rest|
      {
        LeastExists(rest);
        var k :| k in rest && forall k' :: k' in rest && k' != k ==> Below(k, k');
        LeastUnique(k, Least(rest), rest);
        text := text + Entry(k, dict[k]);
        rest := rest - {k};
      }
      assert text == Text(dict) by {
        assert TextOf(dict, rest) == "" && text + "" == text;
      }
      disk.files := disk.files[filename := text];
      return true;
    }
  }
}
