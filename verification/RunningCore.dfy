/**
 The embedded core (core/main.go, core/endpoint.go). Starting, closing, adding and removing may fail at any time; the
 core itself is the configuration it runs.
 */
module RunningCore {
  import opened EgressTables
  import opened Rendering
  import opened Wrappers

  /** `os.ErrInvalid` of a removal: there is no such tag. Callers go on after it. */
  datatype Removal = Removed | Invalid | Broken

  class Core {
    /** No operation of the core fails of itself. */
    const reliable: bool
    var isRunning: bool
    var instance: Option<Config>

    constructor (reliable: bool)
      ensures Valid() && !isRunning && this.reliable == reliable
    {
      this.reliable, isRunning, instance := reliable, false, None;
    }

    ghost predicate Valid()
      reads this
    {
      isRunning <==> instance.Some?
    }

    ghost predicate Runs(c: Config)
      reads this
    {
      isRunning && instance == Some(c)
    }

    /** A configuration that does not decode changes nothing; one that does not start leaves no instance. */
    method Start(config: Config) returns (ok: bool)
      modifies this
      ensures reliable ==> ok
      ensures ok ==> Runs(config)
      ensures !ok ==> isRunning == old(isRunning) && (instance == None || instance == old(instance))
    {
      ok := *;
      ok := ok || reliable;
      var decodes: bool := *;
      if !decodes && !reliable {
        return false;
      }
      if ok {
        instance := Some(config);
        isRunning := true;
      } else {
        instance := None;
      }
    }

    /** An error of closing is reported, but the core counts as stopped. */
    method Stop() returns (ok: bool)
      modifies this
      ensures !isRunning && instance == None
      ensures reliable || old(instance) == None ==> ok
    {
      isRunning := false;
      if instance.None? {
        return true;
      }
      ok := *;
      ok := ok || reliable;
      instance := None;
    }

    method ValidateConfig(config: Config) returns (ok: bool)
      ensures reliable ==> ok
    {
      ok := *;
      ok := ok || reliable;
    }

    /** An inbound replaces a running one of the same tag. A failed addition may leave any set of inbounds. */
    method AddInbound(listener: Listener) returns (ok: bool)
      requires Valid()
      modifies this
      ensures Valid() && isRunning == old(isRunning)
      ensures !old(isRunning) ==> !ok && instance == old(instance)
      ensures reliable && old(isRunning) ==> ok
      ensures ok ==> Runs(old(instance).value.(inbounds := old(instance).value.inbounds[listener.inbound.tag := listener]))
    {
      if !isRunning {
        return false;
      }
      ok := *;
      ok := ok || reliable;
      if ok {
        instance := Some(instance.value.(inbounds := instance.value.inbounds[listener.inbound.tag := listener]));
      } else {
        var left: Listeners := *;
        instance := Some(instance.value.(inbounds := left));
      }
    }

    method RemoveInbound(tag: string) returns (r: Removal)
      requires Valid()
      modifies this
      ensures Valid() && isRunning == old(isRunning)
      ensures !old(isRunning) ==> r == Broken && instance == old(instance)
      ensures reliable && old(isRunning) ==> r != Broken
      ensures r != Broken ==> Runs(old(instance).value.(inbounds := old(instance).value.inbounds - {tag}))
    {
      if !isRunning {
        return Broken;
      }
      r := *;
      if r == Broken && !reliable {
        var left: Listeners := *;
        instance := Some(instance.value.(inbounds := left));
      } else {
        r := if tag in instance.value.inbounds then Removed else Invalid;
        instance := Some(instance.value.(inbounds := instance.value.inbounds - {tag}));
      }
    }

    method AddOutbound(outbound: Outbound) returns (ok: bool)
      requires Valid()
      modifies this
      ensures Valid() && isRunning == old(isRunning)
      ensures !old(isRunning) ==> !ok && instance == old(instance)
      ensures reliable && old(isRunning) ==> ok
      ensures ok ==> Runs(old(instance).value.(outbounds := old(instance).value.outbounds[outbound.tag := outbound]))
    {
      if !isRunning {
        return false;
      }
      ok := *;
      ok := ok || reliable;
      if ok {
        instance := Some(instance.value.(outbounds := instance.value.outbounds[outbound.tag := outbound]));
      } else {
        var left: map<string, Outbound> := *;
        instance := Some(instance.value.(outbounds := left));
      }
    }

    method RemoveOutbound(tag: string) returns (r: Removal)
      requires Valid()
      modifies this
      ensures Valid() && isRunning == old(isRunning)
      ensures !old(isRunning) ==> r == Broken && instance == old(instance)
      ensures reliable && old(isRunning) ==> r != Broken
      ensures r != Broken ==> Runs(old(instance).value.(outbounds := old(instance).value.outbounds - {tag}))
    {
      if !isRunning {
        return Broken;
      }
      r := *;
      if r == Broken && !reliable {
        var left: map<string, Outbound> := *;
        instance := Some(instance.value.(outbounds := left));
      } else {
        r := if tag in instance.value.outbounds then Removed else Invalid;
        instance := Some(instance.value.(outbounds := instance.value.outbounds - {tag}));
      }
    }
  }
}
