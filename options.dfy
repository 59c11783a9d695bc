/**
 * The command-line option loop of myo_raw_osc.py. It starts from the default
 * settings and walks the (flag, argument) pairs that getopt has already
 * produced: `-s/--send` and `-p/--port` overwrite their setting with the
 * integer value of the argument, `-i/--ip` overwrites the address with the
 * argument text, and `-h` prints the usage line and exits at once.
 *
 * getopt itself is not modelled; the fold starts from its output. Python's
 * `int()` is the parameter `parseInt`: `None` stands for the ValueError
 * that `int()` raises on text that is not a number, which nothing catches.
 */
module Options {
  import opened Wrappers

  datatype OptPair = OptPair(flag: string, arg: string)

  datatype Config = Config(send: int, ip: string, port: int)

  /** How the option loop ends: with settings, by printing usage, or on a bad number. */
  datatype Outcome = Run(config: Config) | Usage | BadInt(flag: string, arg: string)

  const DEFAULT_CONFIG: Config := Config(0, "127.0.0.1", 57120)

  const SEND_FLAGS: set<string> := {"-s", "--send"}
  const IP_FLAGS: set<string> := {"-i", "--ip"}
  const PORT_FLAGS: set<string> := {"-p", "--port"}
  const HELP_FLAG: string := "-h"

  /** The loop's effect on the remaining pairs `opts`, from settings `c`. */
  function Apply(c: Config, opts: seq<OptPair>, parseInt: string -> Option<int>): (r: Outcome)
    ensures r.BadInt? ==>
      && (r.flag in SEND_FLAGS || r.flag in PORT_FLAGS) && parseInt(r.arg).None?
      && OptPair(r.flag, r.arg) in opts
    ensures r.Usage? ==> exists i :: 0 <= i < |opts| && opts[i].flag == HELP_FLAG
    decreases |opts|
  {
    if opts == [] then Run(c)
    else
      var p := opts[0];
      if p.flag == HELP_FLAG then Usage
      else if p.flag in SEND_FLAGS then
        match parseInt(p.arg)
        case None => BadInt(p.flag, p.arg)
        case Some(n) => Apply(c.(send := n), opts[1..], parseInt)
      else if p.flag in IP_FLAGS then
        Apply(c.(ip := p.arg), opts[1..], parseInt)
      else if p.flag in PORT_FLAGS then
        match parseInt(p.arg)
        case None => BadInt(p.flag, p.arg)
        case Some(n) => Apply(c.(port := n), opts[1..], parseInt)
      else
        Apply(c, opts[1..], parseInt)
  }

  /** The option loop itself, over the settings variables `send`, `ip` and `port`. */
  method ParseOptions(opts: seq<OptPair>, parseInt: string -> Option<int>) returns (r: Outcome)
    ensures r == Apply(DEFAULT_CONFIG, opts, parseInt)
  {
    var send, ip, port := DEFAULT_CONFIG.send, DEFAULT_CONFIG.ip, DEFAULT_CONFIG.port;
    for i := 0 to |opts|
      invariant Apply(Config(send, ip, port), opts[i..], parseInt) == Apply(DEFAULT_CONFIG, opts, parseInt)
    {
      assert opts[i..][0] == opts[i] && opts[i..][1..] == opts[i + 1..];
      var opt, arg := opts[i].flag, opts[i].arg;
      if opt == HELP_FLAG {
        return Usage;
      } else if opt in SEND_FLAGS {
        var n := parseInt(arg);
        if n.None? {
          return BadInt(opt, arg);
        }
        send := n.value;
      } else if opt in IP_FLAGS {
        ip := arg;
      } else if opt in PORT_FLAGS {
        var n := parseInt(arg);
        if n.None? {
          return BadInt(opt, arg);
        }
        port := n.value;
      }
    }
    r := Run(Config(send, ip, port));
  }

  /** The argument of the last pair whose flag is in `flags`, if any. */
  function LastArg(flags: set<string>, opts: seq<OptPair>): Option<string>
    decreases |opts|
  {
    if opts == [] then None
    else if opts[|opts| - 1].flag in flags then Some(opts[|opts| - 1].arg)
    else LastArg(flags, opts[..|opts| - 1])
  }

  /** The integer a setting ends with: that of its last argument, or `d`. */
  function LastNumber(last: Option<string>, parseInt: string -> Option<int>, d: int): int {
    match last
    case None => d
    case Some(a) => parseInt(a).GetOr(d)
  }

  /** True when the loop reaches its end: no `-h`, and every number parses. */
  ghost predicate Completes(opts: seq<OptPair>, parseInt: string -> Option<int>) {
    forall i :: 0 <= i < |opts| ==>
      opts[i].flag != HELP_FLAG &&
      (opts[i].flag in SEND_FLAGS + PORT_FLAGS ==> parseInt(opts[i].arg).Some?)
  }

  lemma {:induction false} LastArgCons(flags: set<string>, p: OptPair, rest: seq<OptPair>)
    ensures LastArg(flags, [p] + rest) ==
      if LastArg(flags, rest).Some? then LastArg(flags, rest)
      else if p.flag in flags then Some(p.arg)
      else None
    decreases |rest|
  {
    var all := [p] + rest;
    if rest != [] {
      assert all[|all| - 1] == rest[|rest| - 1];
      assert all[..|all| - 1] == [p] + rest[..|rest| - 1];
      LastArgCons(flags, p, rest[..|rest| - 1]);
    } else {
      assert all[..|all| - 1] == [];
    }
  }

  /**
   * The loop runs to its end exactly when no pair is `-h` and every
   * numeric argument parses.
   */
  lemma {:induction false} CompletesIff(c: Config, opts: seq<OptPair>, parseInt: string -> Option<int>)
    ensures Apply(c, opts, parseInt).Run? <==> Completes(opts, parseInt)
    decreases |opts|
  {
    if opts != [] {
      var p := opts[0];
      var c' :=
        if p.flag in SEND_FLAGS && parseInt(p.arg).Some? then c.(send := parseInt(p.arg).value)
        else if p.flag in SEND_FLAGS then c
        else if p.flag in IP_FLAGS then c.(ip := p.arg)
        else if p.flag in PORT_FLAGS && parseInt(p.arg).Some? then c.(port := parseInt(p.arg).value)
        else c;
      CompletesIff(c', opts[1..], parseInt);
      if Completes(opts, parseInt) {
        forall i | 0 <= i < |opts[1..]|
          ensures opts[1..][i].flag != HELP_FLAG &&
            (opts[1..][i].flag in SEND_FLAGS + PORT_FLAGS ==> parseInt(opts[1..][i].arg).Some?)
        {
          assert opts[1..][i] == opts[i + 1];
        }
      }
      if Completes(opts[1..], parseInt) && p.flag != HELP_FLAG &&
         (p.flag in SEND_FLAGS + PORT_FLAGS ==> parseInt(p.arg).Some?) {
        forall i | 0 <= i < |opts|
          ensures opts[i].flag != HELP_FLAG &&
            (opts[i].flag in SEND_FLAGS + PORT_FLAGS ==> parseInt(opts[i].arg).Some?)
        {
          if i > 0 {
            assert opts[i] == opts[1..][i - 1];
          }
        }
      }
    }
  }

  /**
   * When the loop completes, each setting holds the value of the last pair
   * that names it, or its starting value when none does: a flag changes
   * only its own setting, and the last occurrence wins.
   */
  lemma {:induction false} LastOccurrenceWins(c: Config, opts: seq<OptPair>, parseInt: string -> Option<int>)
    requires Completes(opts, parseInt)
    ensures Apply(c, opts, parseInt) == Run(Config(
      LastNumber(LastArg(SEND_FLAGS, opts), parseInt, c.send),
      LastArg(IP_FLAGS, opts).GetOr(c.ip),
      LastNumber(LastArg(PORT_FLAGS, opts), parseInt, c.port)))
    decreases |opts|
  {
    if opts != [] {
      var p, rest := opts[0], opts[1..];
      assert opts == [p] + rest;
      assert p == opts[0];
      forall i | 0 <= i < |rest|
        ensures rest[i].flag != HELP_FLAG &&
          (rest[i].flag in SEND_FLAGS + PORT_FLAGS ==> parseInt(rest[i].arg).Some?)
      {
        assert rest[i] == opts[i + 1];
      }
      LastArgCons(SEND_FLAGS, p, rest);
      LastArgCons(IP_FLAGS, p, rest);
      LastArgCons(PORT_FLAGS, p, rest);
      var c' := c;
      if p.flag in SEND_FLAGS {
        c' := c.(send := parseInt(p.arg).value);
      } else if p.flag in IP_FLAGS {
        c' := c.(ip := p.arg);
      } else if p.flag in PORT_FLAGS {
        c' := c.(port := parseInt(p.arg).value);
      }
      assert Apply(c, opts, parseInt) == Apply(c', rest, parseInt);
      LastOccurrenceWins(c', rest, parseInt);
      LastArgParses(SEND_FLAGS, rest, parseInt);
      LastArgParses(PORT_FLAGS, rest, parseInt);
      LastNumberStep(LastArg(SEND_FLAGS, opts), LastArg(SEND_FLAGS, rest), p.flag in SEND_FLAGS, p.arg,
                     parseInt, c.send, c'.send);
      LastNumberStep(LastArg(PORT_FLAGS, opts), LastArg(PORT_FLAGS, rest), p.flag in PORT_FLAGS, p.arg,
                     parseInt, c.port, c'.port);
    }
  }

  /** Under `Completes`, the last argument of a numeric flag parses. */
  lemma {:induction false} LastArgParses(flags: set<string>, opts: seq<OptPair>, parseInt: string -> Option<int>)
    requires flags <= SEND_FLAGS + PORT_FLAGS
    requires Completes(opts, parseInt)
    ensures LastArg(flags, opts).Some? ==> parseInt(LastArg(flags, opts).value).Some?
    decreases |opts|
  {
    if opts != [] && opts[|opts| - 1].flag !in flags {
      var init := opts[..|opts| - 1];
      forall i | 0 <= i < |init|
        ensures init[i].flag != HELP_FLAG &&
          (init[i].flag in SEND_FLAGS + PORT_FLAGS ==> parseInt(init[i].arg).Some?)
      {
        assert init[i] == opts[i];
      }
      LastArgParses(flags, init, parseInt);
    }
  }

  lemma LastNumberStep(last: Option<string>, lastRest: Option<string>, named: bool, arg: string,
                       parseInt: string -> Option<int>, d: int, d': int)
    requires last == if lastRest.Some? then lastRest else if named then Some(arg) else None
    requires named ==> parseInt(arg) == Some(d')
    requires !named ==> d' == d
    requires lastRest.Some? ==> parseInt(lastRest.value).Some?
    ensures LastNumber(lastRest, parseInt, d') == LastNumber(last, parseInt, d)
  {
  }

  /**
   * `-h` ends the loop: nothing after it is looked at, and when everything
   * before it completes, the outcome is the usage exit.
   */
  lemma {:induction false} HelpStops(c: Config, before: seq<OptPair>, arg: string, after: seq<OptPair>,
                                      parseInt: string -> Option<int>)
    ensures Apply(c, before + [OptPair(HELP_FLAG, arg)] + after, parseInt)
         == Apply(c, before + [OptPair(HELP_FLAG, arg)], parseInt)
    ensures Completes(before, parseInt) ==>
      Apply(c, before + [OptPair(HELP_FLAG, arg)] + after, parseInt) == Usage
    decreases |before|
  {
    var h := OptPair(HELP_FLAG, arg);
    var long, short := before + [h] + after, before + [h];
    if before == [] {
      assert long[0] == h && short[0] == h;
    } else {
      var p := before[0];
      assert long[0] == p && short[0] == p;
      assert long[1..] == before[1..] + [h] + after;
      assert short[1..] == before[1..] + [h];
      if Completes(before, parseInt) {
        forall i | 0 <= i < |before[1..]|
          ensures before[1..][i].flag != HELP_FLAG &&
            (before[1..][i].flag in SEND_FLAGS + PORT_FLAGS ==> parseInt(before[1..][i].arg).Some?)
        {
          assert before[1..][i] == before[i + 1];
        }
      }
      if p.flag in SEND_FLAGS && parseInt(p.arg).Some? {
        HelpStops(c.(send := parseInt(p.arg).value), before[1..], arg, after, parseInt);
      } else if p.flag in IP_FLAGS {
        HelpStops(c.(ip := p.arg), before[1..], arg, after, parseInt);
      } else if p.flag in PORT_FLAGS && parseInt(p.arg).Some? {
        HelpStops(c.(port := parseInt(p.arg).value), before[1..], arg, after, parseInt);
      } else {
        HelpStops(c, before[1..], arg, after, parseInt);
      }
    }
  }

  /** With no options the defaults stand: no sending, to 127.0.0.1, port 57120. */
  lemma DefaultsWithoutOptions(parseInt: string -> Option<int>)
    ensures Apply(DEFAULT_CONFIG, [], parseInt) == Run(Config(0, "127.0.0.1", 57120))
  {
  }
}
