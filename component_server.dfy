/** The component server's registry: the server's published URI and the
    list of component descriptions it offers, with lookups by type and
    classifier and the rewrite of every component URI against a base URI.
    Whether a description matches a (type, classifier) request, and how a
    URI is resolved against a base, belong to collaborators this model does
    not contain; both are parameters. */
module ComponentRegistry {
  import opened Common

  type Uri = string

  /** One component: its type, in the printed form `Class.toString` gives
      it ("interface com.x.Foo" or "class com.x.Foo"), which is also how
      the not-found message shows it; its classifier (the name of this instance) and the URI it is reached
      at, which the server rewrites in place. */
  class ComponentInfo {
    const componentType: string
    const classifier: string
    var uri: Uri

    constructor (componentType: string, classifier: string, uri: Uri)
      ensures this.componentType == componentType && this.classifier == classifier && this.uri == uri
    {
      this.componentType := componentType;
      this.classifier := classifier;
      this.uri := uri;
    }
  }

  /** The infos of one type, in list order. */
  function OfType(infos: seq<ComponentInfo>, componentType: string): (r: seq<ComponentInfo>)
    ensures |r| <= |infos|
    ensures forall i :: 0 <= i < |r| ==> r[i] in infos && r[i].componentType == componentType
    ensures forall i :: 0 <= i < |infos| && infos[i].componentType == componentType ==> infos[i] in r
  {
    if infos == [] then []
    else
      var rest := OfType(infos[..|infos| - 1], componentType);
      var last := infos[|infos| - 1];
      if last.componentType == componentType then rest + [last] else rest
  }

  /** The infos of one type keyed by classifier, each key holding the last
      info that carries it. */
  function ByClassifier(infos: seq<ComponentInfo>, componentType: string): map<string, ComponentInfo> {
    if infos == [] then map[]
    else
      var rest := ByClassifier(infos[..|infos| - 1], componentType);
      var last := infos[|infos| - 1];
      if last.componentType == componentType then rest[last.classifier := last] else rest
  }

  /** A URI resolved against the base n times over. */
  function ResolveTimes(resolve: (Uri, Uri) -> Uri, base: Uri, u: Uri, n: nat): Uri {
    if n == 0 then u else resolve(base, ResolveTimes(resolve, base, u, n - 1))
  }

  predicate Distinct(infos: seq<ComponentInfo>) {
    forall i, j :: 0 <= i < j < |infos| ==> infos[i] != infos[j]
  }

  class ComponentServer {
    var uri: Uri
    var componentInfos: seq<ComponentInfo>

    constructor (uri: Uri)
      ensures this.uri == uri && componentInfos == []
    {
      this.uri := uri;
      componentInfos := [];
    }

    /** The first info, in list order, that matches the type and the
        classifier; an IllegalArgumentException when none does. */
    method GetComponentInfo(componentType: string, classifier: string,
                            matches: (string, string, string, string) -> bool)
      returns (r: Result<ComponentInfo>)
      ensures r.Ok? <==> exists i :: 0 <= i < |componentInfos|
                          && matches(componentInfos[i].componentType, componentInfos[i].classifier, componentType, classifier)
      ensures r.Ok? ==> exists i :: 0 <= i < |componentInfos| && componentInfos[i] == r.value
                          && matches(r.value.componentType, r.value.classifier, componentType, classifier)
                          && forall j :: 0 <= j < i ==>
                               !matches(componentInfos[j].componentType, componentInfos[j].classifier, componentType, classifier)
      ensures r.Err? ==> r.message == "Component not found: " + componentType + "::" + classifier
    {
      var i := 0;
      while i < |componentInfos|
        invariant 0 <= i <= |componentInfos|
        invariant forall j :: 0 <= j < i ==>
                    !matches(componentInfos[j].componentType, componentInfos[j].classifier, componentType, classifier)
      {
        var info := componentInfos[i];
        if matches(info.componentType, info.classifier, componentType, classifier) {
          return Ok(info);
        }
        i := i + 1;
      }
      r := Err("Component not found: " + componentType + "::" + classifier);
    }

    /** Every info of the type, in list order. */
    method GetComponentInfos(componentType: string) returns (result: seq<ComponentInfo>)
      ensures result == OfType(componentInfos, componentType)
    {
      result := [];
      for i := 0 to |componentInfos|
        invariant result == OfType(componentInfos[..i], componentType)
      {
        assert componentInfos[..i + 1][..i] == componentInfos[..i];
        if componentInfos[i].componentType == componentType {
          result := result + [componentInfos[i]];
        }
      }
      assert componentInfos[..|componentInfos|] == componentInfos;
    }

    /** The infos of the type keyed by classifier; a later info replaces an
        earlier one with the same classifier. */
    method GetComponentInfoMap(componentType: string) returns (result: map<string, ComponentInfo>)
      ensures result == ByClassifier(componentInfos, componentType)
    {
      result := map[];
      for i := 0 to |componentInfos|
        invariant result == ByClassifier(componentInfos[..i], componentType)
      {
        assert componentInfos[..i + 1][..i] == componentInfos[..i];
        var info := componentInfos[i];
        if info.componentType == componentType {
          result := result[info.classifier := info];
        }
      }
      assert componentInfos[..|componentInfos|] == componentInfos;
    }

    /** Sets the server URI to the base and resolves every info's URI
        against it, in place. An info listed twice is resolved twice. */
    method ApplyBaseUri(baseUri: Option<Uri>, resolve: (Uri, Uri) -> Uri) returns (r: Result<()>)
      modifies this, componentInfos
      ensures r.Err? <==> baseUri.None?
      ensures r.Err? ==> r.message == "baseUri" && uri == old(uri)
      ensures componentInfos == old(componentInfos)
      ensures r.Ok? ==> uri == baseUri.value
      ensures r.Err? ==> forall o | o in componentInfos :: o.uri == old(o.uri)
      ensures r.Ok? ==> forall o | o in componentInfos ::
                o.uri == ResolveTimes(resolve, baseUri.value, old(o.uri), multiset(componentInfos)[o])
      ensures r.Ok? && Distinct(componentInfos) ==>
                forall i :: 0 <= i < |componentInfos| ==>
                  componentInfos[i].uri == resolve(baseUri.value, old(componentInfos[i].uri))
    {
      if baseUri.None? {
        return Err("baseUri");
      }
      var base := baseUri.value;
      uri := base;
      var infos := componentInfos;
      for i := 0 to |infos|
        invariant componentInfos == infos && uri == base
        invariant forall o | o in infos :: o.uri == ResolveTimes(resolve, base, old(o.uri), multiset(infos[..i])[o])
      {
        assert infos[..i + 1] == infos[..i] + [infos[i]];
        infos[i].uri := resolve(base, infos[i].uri);
      }
      assert infos[..|infos|] == infos;
      if Distinct(infos) {
        forall i | 0 <= i < |infos|
          ensures infos[i].uri == resolve(base, old(infos[i].uri))
        {
          DistinctCountsOne(infos, i);
        }
      }
      r := Ok(());
    }

    /** Replaces the server URI; null is rejected and changes nothing. */
    method SetUri(newUri: Option<Uri>) returns (r: Result<()>)
      modifies this
      ensures r.Err? <==> newUri.None?
      ensures r.Err? ==> r.message == "uri" && uri == old(uri)
      ensures r.Ok? ==> uri == newUri.value
      ensures componentInfos == old(componentInfos)
    {
      if newUri.None? {
        return Err("uri");
      }
      uri := newUri.value;
      r := Ok(());
    }

    /** Replaces the list of infos; null is rejected and changes nothing. */
    method SetComponentInfos(infos: Option<seq<ComponentInfo>>) returns (r: Result<()>)
      modifies this
      ensures r.Err? <==> infos.None?
      ensures r.Err? ==> r.message == "componentInfos" && componentInfos == old(componentInfos)
      ensures r.Ok? ==> componentInfos == infos.value
      ensures uri == old(uri)
    {
      if infos.None? {
        return Err("componentInfos");
      }
      componentInfos := infos.value;
      r := Ok(());
    }
  }

  /** Creating a server with a null URI throws, as the setter does. */
  method NewServer(uri: Option<Uri>) returns (r: Result<ComponentServer>)
    ensures r.Err? <==> uri.None?
    ensures r.Ok? ==> fresh(r.value) && r.value.uri == uri.value && r.value.componentInfos == []
  {
    if uri.None? {
      return Err("uri");
    }
    var server := new ComponentServer(uri.value);
    r := Ok(server);
  }

  /** In a list without repeats each info occurs once. */
  lemma DistinctCountsOne(infos: seq<ComponentInfo>, i: int)
    requires Distinct(infos) && 0 <= i < |infos|
    ensures multiset(infos)[infos[i]] == 1
  {
    var o := infos[i];
    assert infos == infos[..i] + [o] + infos[i + 1..];
    assert o !in infos[..i];
    assert o !in infos[i + 1..] by {
      var rest := infos[i + 1..];
      assert forall k :: 0 <= k < |rest| ==> rest[k] == infos[i + 1 + k];
    }
    assert multiset(infos) == multiset(infos[..i]) + multiset([o]) + multiset(infos[i + 1..]);
  }

  // ---------------------------------------------------------------------
  // Properties of the lookups

  /** The infos of a type are exactly those of the list carrying it, each
      as often as the list holds it. */
  lemma {:induction false} OfTypeCounts(infos: seq<ComponentInfo>, componentType: string, o: ComponentInfo)
    ensures multiset(OfType(infos, componentType))[o] == if o.componentType == componentType then multiset(infos)[o] else 0
  {
    if infos != [] {
      var front := infos[..|infos| - 1];
      OfTypeCounts(front, componentType, o);
      assert infos == front + [infos[|infos| - 1]];
    }
  }

  /** Filtering by type commutes with concatenation, so list order is
      kept. */
  lemma {:induction false} OfTypeAppend(a: seq<ComponentInfo>, b: seq<ComponentInfo>, componentType: string)
    ensures OfType(a + b, componentType) == OfType(a, componentType) + OfType(b, componentType)
    decreases |b|
  {
    if b == [] {
      assert a + b == a;
    } else {
      var b' := b[..|b| - 1];
      assert (a + b)[..|a + b| - 1] == a + b';
      OfTypeAppend(a, b', componentType);
    }
  }

  /** The map's keys are the classifiers of the infos of the type. */
  lemma {:induction false} ByClassifierKeys(infos: seq<ComponentInfo>, componentType: string, c: string)
    ensures c in ByClassifier(infos, componentType) <==>
              exists i :: 0 <= i < |infos| && infos[i].componentType == componentType && infos[i].classifier == c
  {
    if infos != [] {
      var front := infos[..|infos| - 1];
      ByClassifierKeys(front, componentType, c);
      if exists i :: 0 <= i < |front| && front[i].componentType == componentType && front[i].classifier == c {
        var i :| 0 <= i < |front| && front[i].componentType == componentType && front[i].classifier == c;
        assert infos[i] == front[i];
      }
      if exists i :: 0 <= i < |infos| && infos[i].componentType == componentType && infos[i].classifier == c {
        var i :| 0 <= i < |infos| && infos[i].componentType == componentType && infos[i].classifier == c;
        if i < |front| {
          assert front[i] == infos[i];
        }
      }
    }
  }

  /** The info kept for a classifier is the last one of the type carrying
      it: no later info of the type carries that classifier. */
  lemma {:induction false} ByClassifierKeepsLast(infos: seq<ComponentInfo>, componentType: string, c: string)
    requires c in ByClassifier(infos, componentType)
    ensures exists i :: 0 <= i < |infos| && infos[i] == ByClassifier(infos, componentType)[c]
              && infos[i].componentType == componentType && infos[i].classifier == c
              && forall j :: i < j < |infos| ==> !(infos[j].componentType == componentType && infos[j].classifier == c)
  {
    var front := infos[..|infos| - 1];
    var last := infos[|infos| - 1];
    if last.componentType == componentType && last.classifier == c {
      assert infos[|infos| - 1] == ByClassifier(infos, componentType)[c];
    } else {
      ByClassifierKeepsLast(front, componentType, c);
      var i :| 0 <= i < |front| && front[i] == ByClassifier(front, componentType)[c]
                && front[i].componentType == componentType && front[i].classifier == c
                && forall j :: i < j < |front| ==> !(front[j].componentType == componentType && front[j].classifier == c);
      assert infos[i] == front[i];
      forall j | i < j < |infos|
        ensures !(infos[j].componentType == componentType && infos[j].classifier == c)
      {
        if j < |front| {
          assert infos[j] == front[j];
        }
      }
    }
  }
}
