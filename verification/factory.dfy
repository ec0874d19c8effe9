/**
  Creating an endpoint or its parameters by endpoint code
  (src/Web/Factory.php). The class name is formed from the endpoint name;
  whether such a class exists is a parameter (`classes`), and creating the
  object itself is left to the caller, so the model returns the class name.
 */
module Factory {
  import opened Wrappers
  import Strings
  import Lookups
  import System

  /** `getEndpointName`: the endpoint name with its first letter upper-cased. */
  function EndpointName(endpointType: int): (r: Result<string>)
    ensures r.Ok? <==> endpointType in Lookups.Endpoints
    ensures r.Err? ==> r.error == "Endpoint not recognized: " + Strings.IntToString(endpointType)
    ensures r.Ok? ==> |r.value| > 0 && 'A' <= r.value[0] <= 'Z' && Strings.Lower(r.value) == Lookups.Endpoints[endpointType]
  {
    var name :- Lookups.GetEndpoint(endpointType);
    Lookups.EndpointNamesLower();
    Strings.LowerOfUcfirst(name);
    Ok(Strings.Ucfirst(name))
  }

  /** `getEndPointClass`: the class `Name` in the namespace `Endpoint\Name`, with a suffix. */
  function EndpointClass(name: string, suffix: string): string {
    "\\" + System.EndpointNamespace + name + "\\" + name + suffix
  }

  /** `notifyNotImplemented`. */
  function NotImplemented(name: string): string {
    "The " + name + " endpoint has not been implemented."
  }

  /**
    The common part of `createEndpoint` (suffix "") and `createParams`
    (suffix "Params"): the class to instantiate, or the message thrown.
   */
  function Create(endpointType: int, suffix: string, classes: set<string>): (r: Result<string>)
    ensures endpointType !in Lookups.Endpoints ==> r == Err("Endpoint not recognized: " + Strings.IntToString(endpointType))
    ensures endpointType in Lookups.Endpoints ==>
              var name := Strings.Ucfirst(Lookups.Endpoints[endpointType]);
              && (r.Ok? <==> EndpointClass(name, suffix) in classes)
              && (r.Ok? ==> r.value == EndpointClass(name, suffix))
              && (r.Err? ==> r.error == NotImplemented(name))
  {
    var name :- EndpointName(endpointType);
    var className := EndpointClass(name, suffix);
    if className !in classes then Err(NotImplemented(name)) else Ok(className)
  }

  function CreateEndpoint(endpointType: int, classes: set<string>): Result<string> {
    Create(endpointType, "", classes)
  }

  function CreateParams(endpointType: int, classes: set<string>): Result<string> {
    Create(endpointType, "Params", classes)
  }

  /** The endpoint and parameter classes the repository defines. */
  const RepositoryClasses: set<string> := {
    EndpointClass("Pilots", ""), EndpointClass("Nations", ""),
    EndpointClass("Competition", ""), EndpointClass("Competitions", ""),
    EndpointClass("Pilots", "Params"), EndpointClass("Nations", "Params"),
    EndpointClass("Competition", "Params"), EndpointClass("Competitions", "Params")}

  /** The endpoint classes are the ones the first helper names. */
  lemma ClassesAgreeWithSystem()
    ensures EndpointClass("Pilots", "") == "\\" + System.EndpointPilots
    ensures EndpointClass("Nations", "") == "\\" + System.EndpointNations
    ensures EndpointClass("Competition", "") == "\\" + System.EndpointCompetition
    ensures EndpointClass("Competitions", "") == "\\" + System.EndpointCompetitions
  {
    var p := "\\" + System.EndpointNamespace;
    assert EndpointClass("Pilots", "") == p + ("Pilots" + "\\" + "Pilots");
    assert EndpointClass("Nations", "") == p + ("Nations" + "\\" + "Nations");
    assert EndpointClass("Competition", "") == p + ("Competition" + "\\" + "Competition");
    assert EndpointClass("Competitions", "") == p + ("Competitions" + "\\" + "Competitions");
  }

  /** The first letter of each endpoint name is upper-cased. */
  lemma EndpointNames()
    ensures EndpointName(Lookups.EndpointPilot) == Ok("Pilot")
    ensures EndpointName(Lookups.EndpointPilots) == Ok("Pilots")
    ensures EndpointName(Lookups.EndpointNations) == Ok("Nations")
    ensures EndpointName(Lookups.EndpointCompetition) == Ok("Competition")
    ensures EndpointName(Lookups.EndpointCompetitions) == Ok("Competitions")
  {
    assert Strings.Ucfirst("pilot") == "Pilot";
    assert Strings.Ucfirst("pilots") == "Pilots";
    assert Strings.Ucfirst("nations") == "Nations";
    assert Strings.Ucfirst("competition") == "Competition";
    assert Strings.Ucfirst("competitions") == "Competitions";
  }

  /** Every implemented endpoint has both classes. */
  lemma FactoryClasses()
    ensures CreateEndpoint(Lookups.EndpointPilots, RepositoryClasses) == Ok(EndpointClass("Pilots", ""))
    ensures CreateParams(Lookups.EndpointPilots, RepositoryClasses) == Ok(EndpointClass("Pilots", "Params"))
    ensures CreateEndpoint(Lookups.EndpointNations, RepositoryClasses) == Ok(EndpointClass("Nations", ""))
    ensures CreateParams(Lookups.EndpointNations, RepositoryClasses) == Ok(EndpointClass("Nations", "Params"))
  {
    EndpointNames();
  }

  /** The repository has no single-pilot class. */
  lemma PilotClassMissing()
    ensures EndpointClass("Pilot", "") !in RepositoryClasses
    ensures EndpointClass("Pilot", "Params") !in RepositoryClasses
  {
    var n := |System.EndpointNamespace| + 2;
    assert |EndpointClass("Pilot", "")| == n + 10;
    assert |EndpointClass("Pilot", "Params")| == n + 16;
    assert |EndpointClass("Pilots", "")| == n + 12;
    assert |EndpointClass("Nations", "")| == n + 14;
    assert |EndpointClass("Competition", "")| == n + 22;
    assert |EndpointClass("Competitions", "")| == n + 24;
    assert |EndpointClass("Pilots", "Params")| == n + 18;
    assert |EndpointClass("Nations", "Params")| == n + 20;
    assert |EndpointClass("Competition", "Params")| == n + 28;
    assert |EndpointClass("Competitions", "Params")| == n + 30;
  }

  /** The single-pilot endpoint has no class, so creating it fails. */
  lemma PilotNotImplemented()
    ensures CreateEndpoint(Lookups.EndpointPilot, RepositoryClasses) == Err(NotImplemented("Pilot"))
    ensures CreateParams(Lookups.EndpointPilot, RepositoryClasses) == Err(NotImplemented("Pilot"))
  {
    assert EndpointName(Lookups.EndpointPilot) == Ok("Pilot") by {
      assert Strings.Ucfirst("pilot") == "Pilot";
    }
    PilotClassMissing();
  }

  /** The class name determines the endpoint name it was formed from. */
  lemma EndpointClassInjective(na: string, nb: string, suffix: string)
    requires '\\' !in na && '\\' !in nb
    requires EndpointClass(na, suffix) == EndpointClass(nb, suffix)
    ensures na == nb
  {
    var p := "\\" + System.EndpointNamespace;
    var ta, tb := na + ("\\" + na + suffix), nb + ("\\" + nb + suffix);
    assert EndpointClass(na, suffix) == p + ta;
    assert EndpointClass(nb, suffix) == p + tb;
    assert ta == (p + ta)[|p|..];
    assert tb == (p + tb)[|p|..];
    assert ta == na + "\\" + (na + suffix);
    assert tb == nb + "\\" + (nb + suffix);
    Strings.SplitAtUnique(na, na + suffix, nb, nb + suffix, '\\');
  }

  /** Different endpoint codes give different classes. */
  lemma CreateInjective(a: int, b: int, suffix: string, classes: set<string>)
    requires Create(a, suffix, classes).Ok? && Create(a, suffix, classes) == Create(b, suffix, classes)
    ensures a == b
  {
    Lookups.EndpointNamesPlain();
    var na, nb := EndpointName(a).value, EndpointName(b).value;
    forall i | 0 <= i < |na| ensures na[i] != '\\' {
      assert Strings.LowerChar(na[i]) == Lookups.Endpoints[a][i];
    }
    forall i | 0 <= i < |nb| ensures nb[i] != '\\' {
      assert Strings.LowerChar(nb[i]) == Lookups.Endpoints[b][i];
    }
    EndpointClassInjective(na, nb, suffix);
  }
}
