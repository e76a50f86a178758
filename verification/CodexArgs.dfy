/** Reconciling the flags of the codex command line in place. */
module CodexArgs {
  import opened Sequences
  import opened Wrappers

  const BYPASS := "--dangerously-bypass-approvals-and-sandbox"
  const YOLO := "--yolo"
  const FULL_AUTO := "--full-auto"
  const EXEC := "exec"

  type Args = seq<string>

  lemma FlagsDiffer()
    ensures BYPASS != YOLO && BYPASS != FULL_AUTO && YOLO != FULL_AUTO
    ensures EXEC != YOLO && EXEC != FULL_AUTO && EXEC != BYPASS
  {
    assert |BYPASS| != |YOLO| && |YOLO| != |FULL_AUTO| && |EXEC| != |YOLO|;
  }

  // ---- what the two edits of the list mean ----

  /** The arguments other than `flag`, in order. */
  function Without(args: Args, flag: string): (r: Args)
    ensures flag !in r
    ensures flag !in args ==> r == args
    ensures forall x :: x in r <==> x in args && x != flag
  {
    if args == [] then [] else
      var rest := Without(args[1..], flag);
      if args[0] == flag then rest else [args[0]] + rest
  }

  /** Only the first occurrence of `flag` stays. */
  function FirstOnly(args: Args, flag: string): Args {
    if args == [] then []
    else if args[0] == flag then [flag] + Without(args[1..], flag)
    else [args[0]] + FirstOnly(args[1..], flag)
  }

  /** The flag goes right after the first "exec", or at the end. */
  function Placed(args: Args, flag: string): Args {
    if args == [] then [flag]
    else if args[0] == EXEC then [EXEC, flag] + args[1..]
    else [args[0]] + Placed(args[1..], flag)
  }

  function Reconciled(args: Args): Args {
    var requested :=
      if BYPASS !in args then args
      else
        var kept := Without(args, BYPASS);
        if YOLO in kept then kept else Placed(kept, YOLO);
    if YOLO in requested then FirstOnly(Without(requested, FULL_AUTO), YOLO) else requested
  }

  function Count(args: Args, flag: string): nat {
    if args == [] then 0 else (if args[0] == flag then 1 else 0) + Count(args[1..], flag)
  }

  /** The arguments that are none of the three flags. */
  function Others(args: Args): Args {
    Without(Without(Without(args, BYPASS), FULL_AUTO), YOLO)
  }

  // ---- the loops ----

  lemma {:induction false} WithoutConcat(a: Args, b: Args, flag: string)
    ensures Without(a + b, flag) == Without(a, flag) + Without(b, flag)
    decreases |a|
  {
    if a == [] {
      assert a + b == b;
    } else {
      assert (a + b)[1..] == a[1..] + b;
      WithoutConcat(a[1..], b, flag);
    }
  }

  lemma WithoutGrows(args: Args, i: nat, flag: string)
    requires i < |args|
    ensures Without(args[..i + 1], flag)
         == Without(args[..i], flag) + if args[i] == flag then [] else [args[i]]
  {
    assert args[..i + 1] == args[..i] + [args[i]];
    WithoutConcat(args[..i], [args[i]], flag);
  }

  /** Keeps the arguments that are not the flag. */
  method Retain(args: Args, flag: string) returns (kept: Args)
    ensures kept == Without(args, flag)
  {
    kept := [];
    for i := 0 to |args|
      invariant kept == Without(args[..i], flag)
    {
      WithoutGrows(args, i, flag);
      if args[i] != flag {
        kept := kept + [args[i]];
      }
    }
    assert args[..|args|] == args;
  }

  lemma {:induction false} FirstOnlyConcat(a: Args, b: Args, flag: string)
    ensures FirstOnly(a + b, flag) == FirstOnly(a, flag) + if flag in a then Without(b, flag) else FirstOnly(b, flag)
    decreases |a|
  {
    if a == [] {
      assert a + b == b;
    } else {
      assert (a + b)[1..] == a[1..] + b;
      WithoutConcat(a[1..], b, flag);
      FirstOnlyConcat(a[1..], b, flag);
      var first, tail := FirstOnly(a[1..], flag), Without(b, flag);
      Associate([a[0]], first, if flag in a[1..] then tail else FirstOnly(b, flag));
      Associate([flag], Without(a[1..], flag), tail);
    }
  }

  lemma FirstOnlyGrows(args: Args, i: nat, flag: string)
    requires i < |args|
    ensures FirstOnly(args[..i + 1], flag)
         == FirstOnly(args[..i], flag) + if args[i] == flag && flag in args[..i] then [] else [args[i]]
    ensures flag in args[..i + 1] <==> flag in args[..i] || args[i] == flag
  {
    assert args[..i + 1] == args[..i] + [args[i]];
    FirstOnlyConcat(args[..i], [args[i]], flag);
  }

  /** Keeps everything but the later occurrences of the flag. */
  method Collapse(args: Args, flag: string) returns (kept: Args, seen: bool)
    ensures kept == FirstOnly(args, flag)
    ensures seen <==> flag in args
  {
    kept, seen := [], false;
    for i := 0 to |args|
      invariant seen <==> flag in args[..i]
      invariant kept == FirstOnly(args[..i], flag)
    {
      FirstOnlyGrows(args, i, flag);
      if args[i] != flag {
        kept := kept + [args[i]];
      } else if !seen {
        seen, kept := true, kept + [args[i]];
      }
    }
    assert args[..|args|] == args;
  }

  lemma {:induction false} PlacedAt(args: Args, flag: string, i: nat)
    requires i < |args| && args[i] == EXEC && EXEC !in args[..i]
    ensures Placed(args, flag) == args[..i + 1] + [flag] + args[i + 1..]
    decreases i
  {
    if i == 0 {
      assert args[..1] == [EXEC];
    } else {
      assert args[0] in args[..i] && args[1..][..i - 1] == args[..i][1..];
      PlacedAt(args[1..], flag, i - 1);
      assert args[..i + 1] == [args[0]] + args[1..][..i];
      assert args[1..][i..] == args[i + 1..];
    }
  }

  lemma {:induction false} PlacedLast(args: Args, flag: string)
    requires EXEC !in args
    ensures Placed(args, flag) == args + [flag]
    decreases |args|
  {
    if args != [] {
      PlacedLast(args[1..], flag);
    }
  }

  method Position(args: Args, wanted: string) returns (at: Option<nat>)
    ensures at.Some? ==> at.value < |args| && args[at.value] == wanted && wanted !in args[..at.value]
    ensures at.None? ==> wanted !in args
  {
    for i := 0 to |args|
      invariant wanted !in args[..i]
    {
      if args[i] == wanted {
        return Some(i);
      }
      assert args[..i + 1] == args[..i] + [args[i]];
    }
    assert args[..|args|] == args;
    at := None;
  }

  method PlaceAfterExec(args: Args, flag: string) returns (placed: Args)
    ensures placed == Placed(args, flag)
  {
    var at := Position(args, EXEC);
    match at {
      case Some(i) =>
        PlacedAt(args, flag, i);
        placed := args[..i + 1] + [flag] + args[i + 1..];
      case None =>
        PlacedLast(args, flag);
        placed := args + [flag];
    }
  }

  /** A backend's command line, extended by configuration and reconciled for codex only. */
  class CliBackend {
    const command: string
    var args: Args

    constructor (command: string, args: Args)
      ensures this.command == command && this.args == args
    {
      this.command, this.args := command, args;
    }

    method ReconcileCodexArgs()
      modifies this
      ensures args == Reconciled(old(args))
    {
      if BYPASS in args {
        args := Retain(args, BYPASS);
        if YOLO !in args {
          args := PlaceAfterExec(args, YOLO);
        }
      }
      if YOLO in args {
        FlagsDiffer();
        args := Retain(args, FULL_AUTO);
        var seenYolo;
        args, seenYolo := Collapse(args, YOLO);
        // The flag was seen, so the source's last insertion never happens.
        assert seenYolo;
      }
    }

    method ExtendArgs(extra: Args)
      modifies this
      ensures args == if command == "codex" then Reconciled(old(args) + extra) else old(args) + extra
    {
      args := args + extra;
      if command == "codex" {
        ReconcileCodexArgs();
      }
    }
  }

  // ---- what reconciling achieves ----

  lemma {:induction false} CountConcat(a: Args, b: Args, flag: string)
    ensures Count(a + b, flag) == Count(a, flag) + Count(b, flag)
    decreases |a|
  {
    if a == [] {
      assert a + b == b;
    } else {
      assert (a + b)[1..] == a[1..] + b;
      CountConcat(a[1..], b, flag);
    }
  }

  lemma {:induction false} AbsentCount(args: Args, flag: string)
    ensures Count(args, flag) == 0 <==> flag !in args
    decreases |args|
  {
    if args != [] {
      AbsentCount(args[1..], flag);
    }
  }

  /** Keeping the first occurrence: one is left, everything else stays. */
  lemma {:induction false} FirstOnlyKeepsTheRest(args: Args, flag: string)
    ensures Without(FirstOnly(args, flag), flag) == Without(args, flag)
    ensures flag in args ==> Count(FirstOnly(args, flag), flag) == 1
    ensures forall x :: x in FirstOnly(args, flag) <==> x in args
    decreases |args|
  {
    if args != [] {
      if args[0] == flag {
        AbsentCount(Without(args[1..], flag), flag);
      } else {
        FirstOnlyKeepsTheRest(args[1..], flag);
      }
    }
  }

  lemma {:induction false} FirstOnlyOfOne(args: Args, flag: string)
    requires Count(args, flag) <= 1
    ensures FirstOnly(args, flag) == args
    decreases |args|
  {
    if args != [] {
      if args[0] == flag {
        AbsentCount(args[1..], flag);
      } else {
        FirstOnlyOfOne(args[1..], flag);
      }
    }
  }

  lemma {:induction false} PlacedAddsOnlyTheFlag(args: Args, flag: string)
    requires flag != EXEC
    ensures Without(Placed(args, flag), flag) == Without(args, flag)
    ensures forall x :: x in Placed(args, flag) <==> x in args || x == flag
    decreases |args|
  {
    if args != [] {
      if args[0] == EXEC {
        assert ([EXEC, flag] + args[1..])[1..] == [flag] + args[1..];
      } else {
        PlacedAddsOnlyTheFlag(args[1..], flag);
      }
    }
  }

  lemma {:induction false} WithoutCommutes(args: Args, a: string, b: string)
    ensures Without(Without(args, a), b) == Without(Without(args, b), a)
    decreases |args|
  {
    if args != [] {
      WithoutCommutes(args[1..], a, b);
    }
  }

  predicate AsksForBypass(args: Args) {
    BYPASS in args || YOLO in args
  }

  /** What the list looks like after the first half of the work. */
  lemma FirstHalf(args: Args) returns (requested: Args)
    ensures Reconciled(args) == if YOLO in requested then FirstOnly(Without(requested, FULL_AUTO), YOLO) else requested
    ensures BYPASS !in requested
    ensures YOLO in requested <==> AsksForBypass(args)
    ensures !AsksForBypass(args) ==> requested == args
    ensures Without(requested, YOLO) == Without(Without(args, BYPASS), YOLO)
  {
    FlagsDiffer();
    var kept := Without(args, BYPASS);
    PlacedAddsOnlyTheFlag(kept, YOLO);
    requested := if BYPASS !in args then args else if YOLO in kept then kept else Placed(kept, YOLO);
  }

  /** The long flag always goes; asking for the bypass leaves one short flag and no conflicting one. */
  lemma ReconciledFlags(args: Args)
    ensures BYPASS !in Reconciled(args)
    ensures AsksForBypass(args) <==> Count(Reconciled(args), YOLO) == 1 && FULL_AUTO !in Reconciled(args)
    ensures !AsksForBypass(args) ==> Reconciled(args) == args
  {
    FlagsDiffer();
    var requested := FirstHalf(args);
    FirstOnlyKeepsTheRest(Without(requested, FULL_AUTO), YOLO);
    AbsentCount(requested, YOLO);
  }

  /** Every other argument stays, in order. */
  lemma ReconciledKeepsOthers(args: Args)
    ensures Others(Reconciled(args)) == Others(args)
  {
    var requested := FirstHalf(args);
    var r := Reconciled(args);
    assert BYPASS !in r by { ReconciledFlags(args); }
    WithoutCommutes(Without(args, BYPASS), FULL_AUTO, YOLO);
    WithoutCommutes(requested, FULL_AUTO, YOLO);
    WithoutCommutes(r, FULL_AUTO, YOLO);
    if YOLO in requested {
      FirstOnlyKeepsTheRest(Without(requested, FULL_AUTO), YOLO);
      assert Without(r, YOLO) == Without(Without(requested, FULL_AUTO), YOLO);
    }
  }

  lemma {:induction false} PlacingCommutes(args: Args, flag: string, other: string)
    requires flag != other && other != EXEC
    ensures Without(Placed(args, flag), other) == Placed(Without(args, other), flag)
    decreases |args|
  {
    if args != [] {
      if args[0] == EXEC {
        assert ([EXEC, flag] + args[1..])[1..] == [flag] + args[1..];
      } else {
        PlacingCommutes(args[1..], flag, other);
      }
    }
  }

  lemma {:induction false} PlacedOnce(args: Args, flag: string)
    requires flag !in args && flag != EXEC
    ensures Count(Placed(args, flag), flag) == 1
    decreases |args|
  {
    if args != [] {
      if args[0] == EXEC {
        AbsentCount(args[1..], flag);
        assert ([EXEC, flag] + args[1..])[1..] == [flag] + args[1..];
      } else {
        PlacedOnce(args[1..], flag);
      }
    }
  }

  /** A short flag that had to be added stands right after "exec", or last. */
  lemma NewFlagFollowsExec(args: Args)
    requires BYPASS in args && YOLO !in args
    ensures Reconciled(args) == Placed(Others(args), YOLO)
  {
    FlagsDiffer();
    var kept := Without(args, BYPASS);
    PlacingCommutes(kept, YOLO, FULL_AUTO);
    PlacedAddsOnlyTheFlag(kept, YOLO);
    PlacedOnce(Without(kept, FULL_AUTO), YOLO);
    FirstOnlyOfOne(Placed(Without(kept, FULL_AUTO), YOLO), YOLO);
  }

  lemma FirstStays(a: Args, b: Args, flag: string)
    requires flag !in a
    ensures FirstOnly(a + [flag] + b, flag) == a + [flag] + Without(b, flag)
  {
    FirstOnlyConcat(a + [flag], b, flag);
    FirstOnlyConcat(a, [flag], flag);
    AbsentCount(a, flag);
    FirstOnlyOfOne(a, flag);
    assert FirstOnly([flag], flag) == [flag];
  }

  lemma WithoutAround(a: Args, flag: string, b: Args, other: string)
    requires flag != other
    ensures Without(a + [flag] + b, other) == Without(a, other) + [flag] + Without(b, other)
  {
    WithoutConcat(a + [flag], b, other);
    WithoutConcat(a, [flag], other);
  }

  /** A short flag that was given stays where it first stood. */
  lemma GivenFlagStays(a: Args, b: Args)
    requires YOLO !in a
    ensures Reconciled(a + [YOLO] + b) == Others(a) + [YOLO] + Others(b)
  {
    FlagsDiffer();
    var a1, b1 := Without(a, BYPASS), Without(b, BYPASS);
    WithoutAround(a, YOLO, b, BYPASS);
    WithoutAround(a1, YOLO, b1, FULL_AUTO);
    FirstStays(Without(a1, FULL_AUTO), Without(b1, FULL_AUTO), YOLO);
    assert YOLO in a1 + [YOLO] + b1;
  }

  /** Reconciling twice is reconciling once. */
  lemma ReconcilingIsIdempotent(args: Args)
    ensures Reconciled(Reconciled(args)) == Reconciled(args)
  {
    var r := Reconciled(args);
    ReconciledFlags(args);
    if AsksForBypass(args) {
      FirstOnlyOfOne(r, YOLO);
    } else {
      assert r == args;
    }
  }
}
