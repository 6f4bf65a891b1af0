/**
 The start-up configuration of nclttr: the two numeric options `-j` (jitter
 radius) and `-t` (idle timeout) folded, in command-line order, over their
 defaults. The string parsing itself (`getopt`, `atoi`) is not modelled: an
 option arrives here already carrying the integer `atoi` produced.
 */
module Options {

  /** Largest value of a C `int`. */
  const IntMax: int := 0x7fff_ffff

  /** Largest radius whose square still fits in a C `int` (46341 * 46341 does not). */
  const MaxRadius: int := 46340

  /** Jitter radius used when no `-j` is given: 0, which disables jitter filtering. */
  const DefaultRadius: int := 0

  /** Idle timeout, in seconds, used when no `-t` is given. */
  const DefaultTimeout: int := 5

  /** One parsed command-line option. */
  datatype Opt = Jitter(radius: int) | Timeout(seconds: int)

  /** What the main loop reads: the squared jitter radius and the idle timeout. */
  datatype Config = Config(jitterSq: int, timeout: int)

  /** The configuration before any option is applied. */
  const Default: Config := Config(DefaultRadius * DefaultRadius, DefaultTimeout)

  predicate SquareFits(radius: int) {
    -MaxRadius <= radius <= MaxRadius
  }

  /** Every `-j` argument is small enough for `jitter*jitter` to stay defined in C. */
  predicate Representable(opts: seq<Opt>) {
    forall i :: 0 <= i < |opts| && opts[i].Jitter? ==> SquareFits(opts[i].radius)
  }

  /** The threshold `-j radius` stores: a non-negative C `int`, zero exactly for radius 0. */
  function Square(radius: int): (r: int)
    requires SquareFits(radius)
    ensures 0 <= r <= IntMax
    ensures r == 0 <==> radius == 0
  {
    SquareBound(if radius < 0 then -radius else radius);
    radius * radius
  }

  lemma SquareBound(a: int)
    requires 0 <= a <= MaxRadius
    ensures a * a <= IntMax
  {
    var d := MaxRadius - a;
    assert a * a == MaxRadius * MaxRadius - d * (MaxRadius + a);
    assert d * (MaxRadius + a) >= 0;
  }

  /** One pass of the option loop: `-j` replaces the threshold, `-t` the timeout. */
  function Apply(cfg: Config, o: Opt): Config
    requires o.Jitter? ==> SquareFits(o.radius)
  {
    match o
    case Jitter(radius) => cfg.(jitterSq := Square(radius))
    case Timeout(seconds) => cfg.(timeout := seconds)
  }

  /** The option loop from `cfg` over `opts`, left to right. */
  function ConfigureFrom(cfg: Config, opts: seq<Opt>): (r: Config)
    requires Representable(opts)
    ensures cfg.jitterSq >= 0 ==> r.jitterSq >= 0
    ensures r.jitterSq == cfg.jitterSq || 0 <= r.jitterSq <= IntMax
    decreases |opts|
  {
    if |opts| == 0 then cfg
    else
      assert opts[0].Jitter? ==> SquareFits(opts[0].radius);
      ConfigureFrom(Apply(cfg, opts[0]), opts[1..])
  }

  /** `i` is the position of the last `-j` on the command line. */
  predicate LastJitterAt(opts: seq<Opt>, i: int) {
    0 <= i < |opts| && opts[i].Jitter? && forall k :: i < k < |opts| ==> !opts[k].Jitter?
  }

  /** `i` is the position of the last `-t` on the command line. */
  predicate LastTimeoutAt(opts: seq<Opt>, i: int) {
    0 <= i < |opts| && opts[i].Timeout? && forall k :: i < k < |opts| ==> !opts[k].Timeout?
  }

  predicate NoJitter(opts: seq<Opt>) {
    forall k :: 0 <= k < |opts| ==> !opts[k].Jitter?
  }

  predicate NoTimeout(opts: seq<Opt>) {
    forall k :: 0 <= k < |opts| ==> !opts[k].Timeout?
  }

  /** The last occurrence of each option decides its value; without one the start value stays. */
  lemma {:induction false} LastOptionWins(cfg: Config, opts: seq<Opt>)
    requires Representable(opts)
    ensures NoJitter(opts) ==> ConfigureFrom(cfg, opts).jitterSq == cfg.jitterSq
    ensures NoTimeout(opts) ==> ConfigureFrom(cfg, opts).timeout == cfg.timeout
    ensures forall i :: LastJitterAt(opts, i) ==>
              ConfigureFrom(cfg, opts).jitterSq == Square(opts[i].radius)
    ensures forall i :: LastTimeoutAt(opts, i) ==>
              ConfigureFrom(cfg, opts).timeout == opts[i].seconds
    decreases |opts|
  {
    if |opts| > 0 {
      assert opts[0].Jitter? ==> SquareFits(opts[0].radius);
      var next := Apply(cfg, opts[0]);
      var rest := opts[1..];
      assert Representable(rest) by {
        forall k | 0 <= k < |rest| && rest[k].Jitter? ensures SquareFits(rest[k].radius) {
          assert rest[k] == opts[k + 1];
        }
      }
      LastOptionWins(next, rest);
      assert ConfigureFrom(cfg, opts) == ConfigureFrom(next, rest);
      assert NoJitter(opts) ==> NoJitter(rest) by {
        if NoJitter(opts) {
          forall k | 0 <= k < |rest| ensures !rest[k].Jitter? { assert rest[k] == opts[k + 1]; }
        }
      }
      assert NoTimeout(opts) ==> NoTimeout(rest) by {
        if NoTimeout(opts) {
          forall k | 0 <= k < |rest| ensures !rest[k].Timeout? { assert rest[k] == opts[k + 1]; }
        }
      }
      forall i | LastJitterAt(opts, i)
        ensures ConfigureFrom(cfg, opts).jitterSq == Square(opts[i].radius)
      {
        if i == 0 {
          assert NoJitter(rest) by {
            forall k | 0 <= k < |rest| ensures !rest[k].Jitter? { assert rest[k] == opts[k + 1]; }
          }
        } else {
          assert rest[i - 1] == opts[i];
          assert LastJitterAt(rest, i - 1) by {
            forall k | i - 1 < k < |rest| ensures !rest[k].Jitter? { assert rest[k] == opts[k + 1]; }
          }
        }
      }
      forall i | LastTimeoutAt(opts, i)
        ensures ConfigureFrom(cfg, opts).timeout == opts[i].seconds
      {
        if i == 0 {
          assert NoTimeout(rest) by {
            forall k | 0 <= k < |rest| ensures !rest[k].Timeout? { assert rest[k] == opts[k + 1]; }
          }
        } else {
          assert rest[i - 1] == opts[i];
          assert LastTimeoutAt(rest, i - 1) by {
            forall k | i - 1 < k < |rest| ensures !rest[k].Timeout? { assert rest[k] == opts[k + 1]; }
          }
        }
      }
    }
  }

  /**
   The configuration the main loop runs with: jitter threshold 0 and timeout 5
   unless overridden; otherwise the square of the last `-j` radius and the last
   `-t` value.
   */
  function Configure(opts: seq<Opt>): (r: Config)
    requires Representable(opts)
    ensures 0 <= r.jitterSq <= IntMax
    ensures NoJitter(opts) ==> r.jitterSq == 0
    ensures NoTimeout(opts) ==> r.timeout == DefaultTimeout
    ensures forall i :: LastJitterAt(opts, i) ==> r.jitterSq == opts[i].radius * opts[i].radius
    ensures forall i :: LastTimeoutAt(opts, i) ==> r.timeout == opts[i].seconds
    ensures r.jitterSq == 0 <==> NoJitter(opts) || exists i :: LastJitterAt(opts, i) && opts[i].radius == 0
  {
    LastOptionWins(Default, opts);
    var r := ConfigureFrom(Default, opts);
    assert !NoJitter(opts) ==> exists i :: LastJitterAt(opts, i) by {
      if !NoJitter(opts) {
        var j :| 0 <= j < |opts| && opts[j].Jitter?;
        LastJitterExists(opts, j);
      }
    }
    r
  }

  /** Any `-j` on the command line has a last one. */
  lemma {:induction false} LastJitterExists(opts: seq<Opt>, j: int)
    requires 0 <= j < |opts| && opts[j].Jitter?
    ensures exists i :: LastJitterAt(opts, i)
    decreases |opts| - j
  {
    if !LastJitterAt(opts, j) {
      var k :| j < k < |opts| && opts[k].Jitter?;
      LastJitterExists(opts, k);
    }
  }

  /** An option with a `-j` radius replaced by its absolute value. */
  function Magnitude(o: Opt): (r: Opt)
    ensures r.Jitter? <==> o.Jitter?
    ensures r.Jitter? ==> r.radius >= 0 && (r.radius == o.radius || r.radius == -o.radius)
    ensures r.Timeout? ==> r == o
  {
    match o
    case Jitter(radius) => Jitter(if radius < 0 then -radius else radius)
    case Timeout(seconds) => Timeout(seconds)
  }

  /** Every `-j` radius replaced by its absolute value. */
  function Magnitudes(opts: seq<Opt>): (r: seq<Opt>)
    ensures |r| == |opts|
    ensures forall i :: 0 <= i < |opts| ==> r[i] == Magnitude(opts[i])
  {
    seq(|opts|, i requires 0 <= i < |opts| => Magnitude(opts[i]))
  }

  /** Taking the magnitude of one option does not change what it does. */
  lemma ApplyMagnitude(cfg: Config, o: Opt)
    requires o.Jitter? ==> SquareFits(o.radius)
    ensures Magnitude(o).Jitter? ==> SquareFits(Magnitude(o).radius)
    ensures Apply(cfg, Magnitude(o)) == Apply(cfg, o)
  {
    if o.Jitter? {
      assert Square(Magnitude(o).radius) == Square(o.radius);
    }
  }

  /** The sign of a `-j` argument never matters: it is squared before use. */
  lemma {:induction false} SignIrrelevant(cfg: Config, opts: seq<Opt>)
    requires Representable(opts)
    ensures Representable(Magnitudes(opts))
    ensures ConfigureFrom(cfg, Magnitudes(opts)) == ConfigureFrom(cfg, opts)
    decreases |opts|
  {
    var m := Magnitudes(opts);
    assert Representable(m) by {
      forall k | 0 <= k < |m| && m[k].Jitter? ensures SquareFits(m[k].radius) {
        assert opts[k].Jitter?;
      }
    }
    if |opts| > 0 {
      var rest := opts[1..];
      assert Representable(rest) by {
        forall k | 0 <= k < |rest| && rest[k].Jitter? ensures SquareFits(rest[k].radius) {
          assert rest[k] == opts[k + 1];
        }
      }
      assert opts[0].Jitter? ==> SquareFits(opts[0].radius);
      ApplyMagnitude(cfg, opts[0]);
      var next := Apply(cfg, opts[0]);
      SignIrrelevant(next, rest);
      assert m[1..] == Magnitudes(rest);
      assert ConfigureFrom(cfg, m) == ConfigureFrom(next, m[1..]);
    }
  }

  /** `Configure` sees only the magnitude of each `-j` radius. */
  lemma {:induction false} ConfigureIgnoresSign(opts: seq<Opt>)
    requires Representable(opts)
    ensures Representable(Magnitudes(opts))
    ensures Configure(Magnitudes(opts)) == Configure(opts)
  {
    SignIrrelevant(Default, opts);
  }
}
