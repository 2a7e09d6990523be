/**
 * The Home screen of the mobile client (mobile/src/pages/Home/index.tsx):
 * two pickers fed by the IBGE locality service choose a state (`uf`) and a
 * city, and the "Entrar" button either alerts about the missing choice or
 * navigates to the Points screen with exactly the chosen `uf` and `city`.
 */
module Home {
  import Points

  /**
   * A JavaScript value held in a string state field: the picker reports
   * `null` when its placeholder is chosen, otherwise the item's string.
   */
  datatype Nullable = Null | Str(s: string)

  /** JavaScript's `!v` for such a value: `null` and `''` are falsy. */
  predicate Falsy(v: Nullable)
  {
    v.Null? || v.s == ""
  }

  /** An element of the IBGE states response (`IBGEUFResponse`). */
  datatype UfResponse = UfResponse(sigla: string)

  /** An element of the IBGE cities response (`IBGECityResponse`). */
  datatype CityResponse = CityResponse(nome: string)

  /** An entry of a picker (`UfItem`, `CitysItem`); `caption` is its `label`. */
  datatype PickerItem = PickerItem(caption: string, value: string)

  /** What pressing "Entrar" does: an alert, or navigation with route params. */
  datatype Outcome =
    | Alert(title: string, message: string)
    | Navigate(screen: string, params: Points.Params)

  /** A request the city effect issues, or none. */
  datatype Fetch = NoFetch | Get(url: string)

  const AlertTitle: string := "Opss..."
  const StateMissing: string := "Selecione um estado"
  const CityMissing: string := "Selecione uma cidade"
  const PointsScreenName: string := "Points"
  const StatesUrl: string := "https://servicodados.ibge.gov.br/api/v1/localidades/estados"
  const CitiesSuffix: string := "/municipios"

  /** `response.data.map(uf => uf.sigla)`. */
  function Siglas(response: seq<UfResponse>): (r: seq<string>)
    ensures |r| == |response|
    ensures forall i :: 0 <= i < |response| ==> r[i] == response[i].sigla
  {
    seq(|response|, i requires 0 <= i < |response| => response[i].sigla)
  }

  /** `values.map(v => ({ label: v, value: v }))`. */
  function ToPickerItems(values: seq<string>): (r: seq<PickerItem>)
    ensures |r| == |values|
    ensures forall i :: 0 <= i < |values| ==> r[i].caption == values[i] && r[i].value == values[i]
  {
    seq(|values|, i requires 0 <= i < |values| => PickerItem(values[i], values[i]))
  }

  /** The items of the state picker built from the states response. */
  function UfPickerItems(response: seq<UfResponse>): (r: seq<PickerItem>)
    ensures |r| == |response|
    ensures forall i :: 0 <= i < |response| ==>
      r[i].caption == response[i].sigla && r[i].value == response[i].sigla
  {
    ToPickerItems(Siglas(response))
  }

  /** The items of the city picker built from the cities response. */
  function CityPickerItems(response: seq<CityResponse>): (r: seq<PickerItem>)
    ensures |r| == |response|
    ensures forall i :: 0 <= i < |response| ==>
      r[i].caption == response[i].nome && r[i].value == response[i].nome
  {
    seq(|response|, i requires 0 <= i < |response| => PickerItem(response[i].nome, response[i].nome))
  }

  /** The city names of the cities response, in order. */
  function Nomes(response: seq<CityResponse>): (r: seq<string>)
    ensures |r| == |response|
    ensures forall i :: 0 <= i < |response| ==> r[i] == response[i].nome
  {
    seq(|response|, i requires 0 <= i < |response| => response[i].nome)
  }

  /** The values a picker reports, in the order it shows them. */
  function Values(items: seq<PickerItem>): seq<string>
  {
    if items == [] then [] else [items[0].value] + Values(items[1..])
  }

  /** The state picker reports exactly the response's codes, in order. */
  lemma {:induction false} UfPickerValues(response: seq<UfResponse>)
    ensures Values(UfPickerItems(response)) == Siglas(response)
  {
    if response != [] {
      UfPickerValues(response[1..]);
      assert UfPickerItems(response)[1..] == UfPickerItems(response[1..]);
    }
  }

  /** The city picker reports exactly the response's names, in order. */
  lemma {:induction false} CityPickerValues(response: seq<CityResponse>)
    ensures Values(CityPickerItems(response)) == Nomes(response)
  {
    if response != [] {
      CityPickerValues(response[1..]);
      assert CityPickerItems(response)[1..] == CityPickerItems(response[1..]);
    }
  }

  /** The URL of the IBGE cities of state `uf`. */
  function CitiesUrl(uf: string): (u: string)
    ensures |u| == |StatesUrl| + 1 + |uf| + |CitiesSuffix|
    ensures u[..|StatesUrl| + 1] == StatesUrl + "/"
    ensures u[|StatesUrl| + 1..|u| - |CitiesSuffix|] == uf
    ensures u[|u| - |CitiesSuffix|..] == CitiesSuffix
  {
    StatesUrl + "/" + uf + CitiesSuffix
  }

  /** Different states are asked for at different URLs. */
  lemma CitiesUrlInjective(a: string, b: string)
    requires CitiesUrl(a) == CitiesUrl(b)
    ensures a == b
  {
    var n := |StatesUrl + "/"|;
    assert |a| == |b|;
    assert a == CitiesUrl(a)[n..n + |a|];
    assert b == CitiesUrl(b)[n..n + |b|];
  }

  /** The body of the `[uf]` effect: no request while no state is chosen. */
  function CityEffect(uf: Nullable): (f: Fetch)
    ensures f == NoFetch <==> Falsy(uf)
    ensures f.Get? ==> f.url == CitiesUrl(uf.s)
  {
    if Falsy(uf) then NoFetch else Get(CitiesUrl(uf.s))
  }

  /**
   * `handleNavigationToPoints`: the state is checked before the city, and
   * only with both chosen does the screen navigate, with exactly those two.
   */
  function NavigationOutcome(uf: Nullable, city: Nullable): (o: Outcome)
    ensures o.Navigate? <==> !Falsy(uf) && !Falsy(city)
    ensures Falsy(uf) ==> o == Alert(AlertTitle, StateMissing)
    ensures !Falsy(uf) && Falsy(city) ==> o == Alert(AlertTitle, CityMissing)
    ensures o.Navigate? ==>
      o.screen == PointsScreenName && o.params == Points.Params(uf.s, city.s)
  {
    if Falsy(uf) then Alert(AlertTitle, StateMissing)
    else if Falsy(city) then Alert(AlertTitle, CityMissing)
    else Navigate(PointsScreenName, Points.Params(uf.s, city.s))
  }

  /**
   * Navigation hands the Points screen a state and a city that are both
   * non-empty, and its first `points` request filters by exactly them.
   */
  lemma FirstPointsQuery(uf: Nullable, city: Nullable)
    requires NavigationOutcome(uf, city).Navigate?
    ensures uf.Str? && city.Str? && uf.s != "" && city.s != ""
    ensures Points.Criteria(NavigationOutcome(uf, city).params, [])
         == Points.PointsQuery(city.s, uf.s, [])
  {
  }

  /** The state of the Home screen. */
  class HomeScreen {
    var uf: Nullable
    var ufInitials: seq<PickerItem>
    var city: Nullable
    var citys: seq<PickerItem>

    /**
     * Mounting the screen: both choices start as `''`, so the mount run of
     * the city effect issues no request.
     */
    constructor ()
      ensures uf == Str("") && city == Str("") && ufInitials == [] && citys == []
      ensures CityEffect(uf) == NoFetch
    {
      uf := Str("");
      ufInitials := [];
      city := Str("");
      citys := [];
    }

    /** The states response replaces the state picker's items. */
    method ReceiveUfs(response: seq<UfResponse>)
      modifies this
      ensures ufInitials == UfPickerItems(response)
      ensures uf == old(uf) && city == old(city) && citys == old(citys)
    {
      ufInitials := UfPickerItems(response);
    }

    /**
     * `handleUfSelected`: stores the chosen state; the `[uf]` effect runs
     * only when the value changed. The chosen city is kept as it is.
     */
    method HandleUfSelected(value: Nullable) returns (fetch: Fetch)
      modifies this
      ensures uf == value
      ensures fetch == if old(uf) == value then NoFetch else CityEffect(value)
      ensures city == old(city) && citys == old(citys) && ufInitials == old(ufInitials)
    {
      fetch := if uf == value then NoFetch else CityEffect(value);
      uf := value;
    }

    /** The cities response replaces the city picker's items. */
    method ReceiveCitys(response: seq<CityResponse>)
      modifies this
      ensures citys == CityPickerItems(response)
      ensures uf == old(uf) && city == old(city) && ufInitials == old(ufInitials)
    {
      citys := CityPickerItems(response);
    }

    /** `handleCitySelected`: stores the chosen city. */
    method HandleCitySelected(value: Nullable)
      modifies this
      ensures city == value
      ensures uf == old(uf) && citys == old(citys) && ufInitials == old(ufInitials)
    {
      city := value;
    }

    /** `handleNavigationToPoints` on the current choices. */
    method HandleNavigationToPoints() returns (o: Outcome)
      ensures o == NavigationOutcome(uf, city)
      ensures o.Navigate? <==> !Falsy(uf) && !Falsy(city)
      ensures o.Navigate? ==> o.params == Points.Params(uf.s, city.s)
      ensures o.Alert? ==> o.message == (if Falsy(uf) then StateMissing else CityMissing)
    {
      o := NavigationOutcome(uf, city);
    }
  }
}
