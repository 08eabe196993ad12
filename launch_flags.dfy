/**
 * The run parameters `main` reads from `argv`: every recognised option ORs
 * a fixed set of mode bits into the program-wide `flag`. The bit values live
 * in `flags.h`, which is not part of this model: STANDARD is the empty mask
 * and DEBUG, OPENGL, FPS and ONLYTEXT are four distinct single bits, so a
 * mask is modelled as the set of the modes whose bits it holds, `|` as set
 * union and `flag & X` as membership.
 */
module LaunchFlags {
  import opened QtText

  datatype Mode = Debug | OpenGL | Fps | OnlyText

  type Flags = set<Mode>

  const STANDARD: Flags := {}
  const DEBUG: Flags := {Debug}
  const OPENGL: Flags := {OpenGL}
  const FPS: Flags := {Fps}
  const ONLYTEXT: Flags := {OnlyText}

  /**
   * `arg.compare(option, Qt::CaseInsensitive) == 0` for an option spelled in
   * lower case: the folded argument is the option itself.
   */
  predicate Spells(arg: string, option: string) {
    FoldString(arg) == option
  }

  /** The option spellings `main` compares against are their own folding, so `Spells` is Qt's case-insensitive comparison with them. */
  lemma SpellsIsCaseInsensitiveComparison(arg: string)
    ensures Spells(arg, "-debug") <==> EqualsIgnoreCase(arg, "-debug")
    ensures Spells(arg, "-opengl") <==> EqualsIgnoreCase(arg, "-opengl")
    ensures Spells(arg, "-text") <==> EqualsIgnoreCase(arg, "-text")
    ensures Spells(arg, "-fps") <==> EqualsIgnoreCase(arg, "-fps")
  {
    assert FoldString("-debug") == "-debug";
    assert FoldString("-opengl") == "-opengl";
    assert FoldString("-text") == "-text";
    assert FoldString("-fps") == "-fps";
  }

  /** The four options `main` knows, compared without regard to case. */
  predicate IsOption(arg: string) {
    Spells(arg, "-debug") || Spells(arg, "-opengl") || Spells(arg, "-text") || Spells(arg, "-fps")
  }

  /** The bits one argument contributes, tested in the order `main` tests them. */
  function OptionBits(arg: string): Flags {
    if Spells(arg, "-debug") then DEBUG
    else if Spells(arg, "-opengl") then OPENGL + FPS
    else if Spells(arg, "-text") then ONLYTEXT + DEBUG
    else if Spells(arg, "-fps") then FPS
    else STANDARD
  }

  /** The arguments the loop visits: everything after the program name. */
  function Parameters(argv: seq<string>): seq<string> {
    if |argv| == 0 then [] else argv[1..]
  }

  /** The bits of a sequence of arguments, accumulated left to right as the loop does. */
  function AccumulatedBits(args: seq<string>): Flags {
    if args == [] then STANDARD else AccumulatedBits(args[..|args| - 1]) + OptionBits(args[|args| - 1])
  }

  /** Whether some argument spells `option`, in any case. */
  predicate Given(args: seq<string>, option: string) {
    exists i :: 0 <= i < |args| && Spells(args[i], option)
  }

  /** The bits of four independent option tests: each mode is on exactly when an option that carries it is. */
  function BitsOf(debug: bool, opengl: bool, text: bool, fps: bool): Flags {
    (if debug || text then DEBUG else STANDARD)
    + (if opengl then OPENGL else STANDARD)
    + (if opengl || fps then FPS else STANDARD)
    + (if text then ONLYTEXT else STANDARD)
  }

  /** Independent description of the outcome, from which options occur and not from their order. */
  function ExpectedBits(args: seq<string>): Flags {
    BitsOf(Given(args, "-debug"), Given(args, "-opengl"), Given(args, "-text"), Given(args, "-fps"))
  }

  lemma GivenAfterAppend(p: seq<string>, x: string, option: string)
    ensures Given(p + [x], option) <==> Given(p, option) || Spells(x, option)
  {
    var args := p + [x];
    if Given(args, option) {
      var i :| 0 <= i < |args| && Spells(args[i], option);
      if i < |p| { assert p[i] == args[i]; }
    }
    if Given(p, option) {
      var i :| 0 <= i < |p| && Spells(p[i], option);
      assert args[i] == p[i];
    }
    if Spells(x, option) {
      assert args[|p|] == x;
    }
  }

  /** At most one of the four options matches any argument, since their spellings differ in length. */
  lemma OptionsExclusive(x: string)
    ensures Spells(x, "-debug") ==> |x| == 6
    ensures Spells(x, "-opengl") ==> |x| == 7
    ensures Spells(x, "-text") ==> |x| == 5
    ensures Spells(x, "-fps") ==> |x| == 4
  {
    assert |FoldString(x)| == |x|;
  }

  /** The bits of one argument, as four independent option tests. */
  lemma OptionBitsAsTests(x: string)
    ensures OptionBits(x) == BitsOf(Spells(x, "-debug"), Spells(x, "-opengl"), Spells(x, "-text"), Spells(x, "-fps"))
  {
    OptionsExclusive(x);
  }

  lemma BitsOfUnion(d: bool, o: bool, t: bool, f: bool, d': bool, o': bool, t': bool, f': bool)
    ensures BitsOf(d, o, t, f) + BitsOf(d', o', t', f') == BitsOf(d || d', o || o', t || t', f || f')
  {
  }

  /** The accumulated bits are the bits of the options given, whatever else was passed and in whatever order. */
  lemma {:induction false} AccumulatedBitsByOption(args: seq<string>)
    ensures AccumulatedBits(args) == ExpectedBits(args)
  {
    if args != [] {
      var p, x := args[..|args| - 1], args[|args| - 1];
      assert args == p + [x];
      AccumulatedBitsByOption(p);
      GivenAfterAppend(p, x, "-debug");
      GivenAfterAppend(p, x, "-opengl");
      GivenAfterAppend(p, x, "-text");
      GivenAfterAppend(p, x, "-fps");
      OptionBitsAsTests(x);
      BitsOfUnion(Given(p, "-debug"), Given(p, "-opengl"), Given(p, "-text"), Given(p, "-fps"),
                  Spells(x, "-debug"), Spells(x, "-opengl"), Spells(x, "-text"), Spells(x, "-fps"));
    }
  }

  /** Each mode is switched on exactly when one of the options that carry it was given. */
  lemma ModesSwitchedOn(args: seq<string>)
    ensures Debug in AccumulatedBits(args) <==> Given(args, "-debug") || Given(args, "-text")
    ensures OpenGL in AccumulatedBits(args) <==> Given(args, "-opengl")
    ensures Fps in AccumulatedBits(args) <==> Given(args, "-opengl") || Given(args, "-fps")
    ensures OnlyText in AccumulatedBits(args) <==> Given(args, "-text")
  {
    AccumulatedBitsByOption(args);
  }

  lemma GivenRegardlessOfOrder(a: seq<string>, b: seq<string>, option: string)
    requires multiset(a) == multiset(b)
    ensures Given(a, option) <==> Given(b, option)
  {
    if Given(a, option) {
      var i :| 0 <= i < |a| && Spells(a[i], option);
      assert a[i] in multiset(b);
      var j :| 0 <= j < |b| && b[j] == a[i];
    }
    if Given(b, option) {
      var j :| 0 <= j < |b| && Spells(b[j], option);
      assert b[j] in multiset(a);
      var i :| 0 <= i < |a| && a[i] == b[j];
    }
  }

  /** Reordering the arguments never changes the flags. */
  lemma OrderIrrelevant(a: seq<string>, b: seq<string>)
    requires multiset(a) == multiset(b)
    ensures AccumulatedBits(a) == AccumulatedBits(b)
  {
    AccumulatedBitsByOption(a);
    AccumulatedBitsByOption(b);
    GivenRegardlessOfOrder(a, b, "-debug");
    GivenRegardlessOfOrder(a, b, "-opengl");
    GivenRegardlessOfOrder(a, b, "-text");
    GivenRegardlessOfOrder(a, b, "-fps");
  }

  /** Processing more arguments only ever adds bits: the flags of a prefix are contained in the flags of the whole. */
  lemma {:induction false} BitsOnlyAdded(p: seq<string>, q: seq<string>)
    ensures AccumulatedBits(p) <= AccumulatedBits(p + q)
    decreases |q|
  {
    if q != [] {
      var q' := q[..|q| - 1];
      assert (p + q)[..|p + q| - 1] == p + q';
      BitsOnlyAdded(p, q');
    } else {
      assert p + q == p;
    }
  }

  lemma SameOptionsGiven(a: seq<string>, x: string, b: seq<string>, option: string)
    requires !Spells(x, option)
    ensures Given(a + [x] + b, option) <==> Given(a + b, option)
  {
    var s, t := a + [x] + b, a + b;
    if Given(s, option) {
      var i :| 0 <= i < |s| && Spells(s[i], option);
      if i < |a| { assert t[i] == s[i]; }
      else if i > |a| { assert t[i - 1] == s[i]; }
    }
    if Given(t, option) {
      var i :| 0 <= i < |t| && Spells(t[i], option);
      if i < |a| { assert s[i] == t[i]; } else { assert s[i + 1] == t[i]; }
    }
  }

  /** An argument that is none of the four options may be dropped from anywhere in the list. */
  lemma UnknownArgumentIgnored(a: seq<string>, x: string, b: seq<string>)
    requires !IsOption(x)
    ensures AccumulatedBits(a + [x] + b) == AccumulatedBits(a + b)
  {
    AccumulatedBitsByOption(a + [x] + b);
    AccumulatedBitsByOption(a + b);
    SameOptionsGiven(a, x, b, "-debug");
    SameOptionsGiven(a, x, b, "-opengl");
    SameOptionsGiven(a, x, b, "-text");
    SameOptionsGiven(a, x, b, "-fps");
  }

  /** Options are matched without regard to case: two spellings that differ only in case contribute the same bits. */
  lemma CaseInsensitiveOptions(x: string, y: string)
    requires EqualsIgnoreCase(x, y)
    ensures OptionBits(x) == OptionBits(y)
  {
  }

  /** Upper- and mixed-case spellings select the same modes as the lower-case ones. */
  lemma UpperCaseSpellings()
    ensures OptionBits("-DEBUG") == DEBUG
    ensures OptionBits("-OpenGL") == OPENGL + FPS
    ensures OptionBits("-TEXT") == ONLYTEXT + DEBUG
    ensures OptionBits("-FPS") == FPS
  {
  }

  /** `flag` stays STANDARD (the "STD MODE" report) exactly when no argument is one of the four options. */
  lemma StandardModeIffNoOption(args: seq<string>)
    ensures AccumulatedBits(args) == STANDARD <==> forall i :: 0 <= i < |args| ==> !IsOption(args[i])
  {
    ModesSwitchedOn(args);
    if exists i :: 0 <= i < |args| && IsOption(args[i]) {
      var i :| 0 <= i < |args| && IsOption(args[i]);
      assert Given(args, "-debug") || Given(args, "-opengl") || Given(args, "-text") || Given(args, "-fps");
    }
  }

  /** One more iteration of the argument loop adds exactly the bits of the argument it visits. */
  lemma AccumulateOne(args: seq<string>, k: nat)
    requires k < |args|
    ensures AccumulatedBits(args[..k + 1]) == AccumulatedBits(args[..k]) + OptionBits(args[k])
  {
    assert args[..k + 1][..k] == args[..k];
  }

  /** The program-wide state that `main` updates while reading its run parameters. */
  class ProgramState {
    var flag: Flags

    constructor ()
      ensures flag == STANDARD
    {
      flag := STANDARD;
    }

    /** The `for (i = 1; i < argc; i++)` loop of `main`: OR in the bits of every recognised option. */
    method CheckRunParameters(argv: seq<string>)
      modifies this
      ensures flag == old(flag) + AccumulatedBits(Parameters(argv))
      ensures old(flag) <= flag
    {
      ghost var params := Parameters(argv);
      var i := 1;
      while i < |argv|
        invariant 1 <= i <= |params| + 1
        invariant flag == old(flag) + AccumulatedBits(params[..i - 1])
      {
        var arg := argv[i];
        if Spells(arg, "-debug") {
          flag := flag + DEBUG;
        } else if Spells(arg, "-opengl") {
          flag := flag + OPENGL + FPS;
        } else if Spells(arg, "-text") {
          flag := flag + ONLYTEXT + DEBUG;
        } else if Spells(arg, "-fps") {
          flag := flag + FPS;
        }
        AccumulateOne(params, i - 1);
        i := i + 1;
      }
      assert params[..i - 1] == params;
    }
  }
}
