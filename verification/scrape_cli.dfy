/** The scraper's command line: the loop over the options `getopt` returns, deciding the mode,
    the competition id and the output directory, or the exit code when usage is printed. */
module ScrapeCli {
  import opened Wrappers
  import opened Scrape

  /** One option as `getopt` returns it: its name and its argument ("" for a flag). */
  datatype Opt = Opt(name: string, value: string)

  /** Either still reading options, or stopped by `usage(code)`. */
  datatype CliState =
    | Scanning(mode: ScrapeType, compId: Option<string>, dataDir: string)
    | Exited(code: int)

  const INITIAL := Scanning(Incremental, None, "data")

  /** One turn of the option loop. */
  function Step(st: CliState, o: Opt): CliState {
    match st
    case Exited(_) => st
    case Scanning(mode, compId, dir) =>
      if o.name == "-c" then
        if mode == Full then Exited(1) else Scanning(Single, Some(o.value), dir)
      else if o.name == "-f" then
        if mode == Single then Exited(1) else Scanning(Full, compId, dir)
      else if o.name == "-o" then Scanning(mode, compId, o.value)
      else if o.name == "-h" || o.name == "--help" then Exited(0)
      else Exited(1)
  }

  /** The loop over all the options, in order. */
  function Run(st: CliState, opts: seq<Opt>): CliState {
    if opts == [] then st else Step(Run(st, opts[..|opts| - 1]), opts[|opts| - 1])
  }

  /** The option loop itself. */
  method ParseOptions(opts: seq<Opt>) returns (st: CliState)
    ensures st == Run(INITIAL, opts)
  {
    st := INITIAL;
    var i := 0;
    while i < |opts|
      invariant 0 <= i <= |opts|
      invariant st == Run(INITIAL, opts[..i])
    {
      assert opts[..i + 1][..i] == opts[..i];
      match st {
        case Exited(_) =>
        case Scanning(mode, compId, dir) =>
          var o := opts[i];
          if o.name == "-c" {
            if mode == Full {
              st := Exited(1);
            } else {
              st := Scanning(Single, Some(o.value), dir);
            }
          } else if o.name == "-f" {
            if mode == Single {
              st := Exited(1);
            } else {
              st := Scanning(Full, compId, dir);
            }
          } else if o.name == "-o" {
            st := Scanning(mode, compId, o.value);
          } else if o.name == "-h" || o.name == "--help" {
            st := Exited(0);
          } else {
            st := Exited(1);
          }
      }
      i := i + 1;
    }
    assert opts[..i] == opts;
  }

  predicate Has(opts: seq<Opt>, name: string) {
    exists i :: 0 <= i < |opts| && opts[i].name == name
  }

  /** The argument of the last option called `name`, if any. */
  function LastValue(opts: seq<Opt>, name: string): (r: Option<string>)
    ensures r.Some? <==> Has(opts, name)
  {
    if opts == [] then None
    else if opts[|opts| - 1].name == name then Some(opts[|opts| - 1].value)
    else
      var r := LastValue(opts[..|opts| - 1], name);
      assert Has(opts, name) ==> Has(opts[..|opts| - 1], name) by {
        if Has(opts, name) {
          var i :| 0 <= i < |opts| && opts[i].name == name;
          assert opts[..|opts| - 1][i].name == name;
        }
      }
      r
  }

  lemma HasPrefix(opts: seq<Opt>, name: string)
    requires opts != []
    ensures Has(opts, name) <==> Has(opts[..|opts| - 1], name) || opts[|opts| - 1].name == name
  {
    if Has(opts, name) && opts[|opts| - 1].name != name {
      var i :| 0 <= i < |opts| && opts[i].name == name;
      assert opts[..|opts| - 1][i].name == name;
    }
    if Has(opts[..|opts| - 1], name) {
      var i :| 0 <= i < |opts| - 1 && opts[..|opts| - 1][i].name == name;
      assert opts[i].name == name;
    }
  }

  predicate Known(o: Opt) {
    o.name == "-c" || o.name == "-f" || o.name == "-o"
  }

  /** When the loop runs to its end: every option was -c, -f or -o; the mode is SINGLE exactly
      when -c was given and FULL exactly when -f was given (so never both); the competition id
      is the last -c argument and the directory the last -o argument, "data" by default. */
  lemma {:induction false} CompletedRun(opts: seq<Opt>)
    ensures var st := Run(INITIAL, opts);
      st.Scanning? ==>
        && (forall i :: 0 <= i < |opts| ==> Known(opts[i]))
        && (st.mode == Single <==> Has(opts, "-c"))
        && (st.mode == Full <==> Has(opts, "-f"))
        && st.compId == LastValue(opts, "-c")
        && st.dataDir == LastValue(opts, "-o").GetOr("data")
  {
    if opts != [] {
      var init := opts[..|opts| - 1];
      var o := opts[|opts| - 1];
      CompletedRun(init);
      HasPrefix(opts, "-c");
      HasPrefix(opts, "-f");
      var st := Run(INITIAL, opts);
      if st.Scanning? {
        assert Run(INITIAL, init).Scanning?;
        forall i | 0 <= i < |opts|
          ensures Known(opts[i])
        {
          if i < |opts| - 1 {
            assert opts[i] == init[i];
          }
        }
      }
    }
  }

  /** -c and -f are mutually exclusive: given both, the loop stops with usage. */
  lemma ConflictExits(opts: seq<Opt>)
    requires Has(opts, "-c") && Has(opts, "-f")
    ensures Run(INITIAL, opts).Exited?
  {
    CompletedRun(opts);
  }

  /** An unrecognised option, or help, stops the loop with usage. */
  lemma UnknownExits(opts: seq<Opt>, i: nat)
    requires i < |opts| && !Known(opts[i])
    ensures Run(INITIAL, opts).Exited?
  {
    CompletedRun(opts);
  }

  /** Usage exits with 0 only for -h/--help, and with 1 only for a -c/-f conflict or an
      unrecognised option. */
  lemma {:induction false} ExitCodes(opts: seq<Opt>)
    ensures var st := Run(INITIAL, opts);
      st.Exited? ==>
        && (st.code == 0 || st.code == 1)
        && (st.code == 0 ==> Has(opts, "-h") || Has(opts, "--help"))
        && (st.code == 1 ==> (Has(opts, "-c") && Has(opts, "-f")) || exists i :: 0 <= i < |opts| && !Known(opts[i]) && opts[i].name != "-h" && opts[i].name != "--help")
  {
    if opts != [] {
      var init := opts[..|opts| - 1];
      var o := opts[|opts| - 1];
      ExitCodes(init);
      CompletedRun(init);
      HasPrefix(opts, "-c");
      HasPrefix(opts, "-f");
      HasPrefix(opts, "-h");
      HasPrefix(opts, "--help");
      var st := Run(INITIAL, opts);
      if Run(INITIAL, init).Exited? {
        if st.code == 1 && !(Has(opts, "-c") && Has(opts, "-f")) {
          var i :| 0 <= i < |init| && !Known(init[i]) && init[i].name != "-h" && init[i].name != "--help";
          assert opts[i] == init[i];
        }
      } else if st.Exited? && st.code == 1 && !Known(o) {
        assert opts[|opts| - 1] == o;
      }
    }
  }

  /** The documented invocations. */
  lemma Invocations()
    ensures Run(INITIAL, []) == Scanning(Incremental, None, "data")
    ensures Run(INITIAL, [Opt("-c", "1637")]) == Scanning(Single, Some("1637"), "data")
    ensures Run(INITIAL, [Opt("-f", ""), Opt("-o", "out")]) == Scanning(Full, None, "out")
    ensures Run(INITIAL, [Opt("-c", "1637"), Opt("-f", "")]) == Exited(1)
    ensures Run(INITIAL, [Opt("-h", ""), Opt("-f", "")]) == Exited(0)
  {
    assert [Opt("-c", "1637"), Opt("-f", "")][..1] == [Opt("-c", "1637")];
    assert [Opt("-f", ""), Opt("-o", "out")][..1] == [Opt("-f", "")];
    assert [Opt("-h", ""), Opt("-f", "")][..1] == [Opt("-h", "")];
  }
}
