/** Menu authoring and publishing. A row's primary key is its position; an item carries
    its component rows and its modifier-group links, a group its options, because they are
    only ever written together with it. A failed call rolls its transaction back. */
module Menu {
  import opened Prelude
  import Money

  datatype Status = Draft | Published | Archived

  datatype Version = Version(restaurant: int, versionNo: int, status: Status, currency: string)

  datatype Item = Item(version: nat, product: Option<int>, name: string, isCombo: bool, madeToOrder: bool,
                       priceMinor: int, parts: seq<nat>, groups: seq<nat>)

  datatype Choice = Choice(name: string, priceDelta: real, product: Option<int>)

  datatype GroupOption = GroupOption(name: string, priceDeltaMinor: int, product: Option<int>)

  datatype Group = Group(version: nat, name: string, minSelect: int, maxSelect: int, options: seq<GroupOption>)

  datatype Product = Product(restaurant: int, sellable: bool)

  datatype Tables = Tables(versions: seq<Version>, items: seq<Item>, groups: seq<Group>)

  datatype Error =
    | NotFound | VersionImmutable | ComboHasNoProduct | ComboNeedsComponents | ItemNeedsProduct | NotSellable
    | NestedCombo | DuplicateGroup | InvalidModifierGroup | VersionEmpty | BadAmount

  /** The body of an add-item request. */
  datatype NewItem = NewItem(product: Option<int>, name: string, isCombo: bool, madeToOrder: bool, price: real,
                             components: seq<nat>, groups: seq<nat>)

  datatype NewGroup = NewGroup(name: string, minSelect: int, maxSelect: int, options: seq<Choice>)

  type Products = map<int, Product>

  // ---------------------------------------------------- what each call checks

  /** The first failing check over a list, in list order. */
  function FirstError<T>(s: seq<T>, check: T -> Option<Error>): (e: Option<Error>)
    ensures e.None? <==> forall i :: 0 <= i < |s| ==> check(s[i]).None?
  {
    if |s| == 0 then None
    else if check(s[0]).Some? then check(s[0])
    else FirstError(s[1..], check)
  }

  function EditError(versions: seq<Version>, restaurant: int, version: nat): Option<Error>
  {
    if version >= |versions| || versions[version].restaurant != restaurant then Some(NotFound)
    else if !versions[version].status.Draft? then Some(VersionImmutable)
    else None
  }

  function ProductError(products: Products, restaurant: int, product: int, mustSell: bool): Option<Error>
  {
    if product !in products || products[product].restaurant != restaurant then Some(NotFound)
    else if mustSell && !products[product].sellable then Some(NotSellable)
    else None
  }

  function KindError(products: Products, restaurant: int, body: NewItem): Option<Error>
  {
    if body.isCombo then
      if body.product.Some? then Some(ComboHasNoProduct)
      else if |body.components| == 0 then Some(ComboNeedsComponents)
      else None
    else if body.product.None? then Some(ItemNeedsProduct)
    else ProductError(products, restaurant, body.product.value, true)
  }

  /** `items` already holds the new item, so an item that is no combo may name itself. */
  function PartError(items: seq<Item>, version: nat): nat -> Option<Error>
  {
    (part: nat) =>
      if part >= |items| || items[part].version != version then Some(NotFound)
      else if items[part].isCombo then Some(NestedCombo)
      else None
  }

  function LinkError(groups: seq<Group>, version: nat): nat -> Option<Error>
  {
    (group: nat) => if group >= |groups| || groups[group].version != version then Some(NotFound) else None
  }

  function OptionError(products: Products, restaurant: int, currency: string): Choice -> Option<Error>
  {
    (c: Choice) =>
      if c.product.Some? && ProductError(products, restaurant, c.product.value, false).Some? then Some(NotFound)
      else if Money.ToMinor(c.priceDelta, currency).Err? then Some(BadAmount)
      else None
  }

  function Either(first: Option<Error>, second: Option<Error>): Option<Error>
  {
    if first.Some? then first else second
  }

  predicate AllDifferent(s: seq<nat>)
  {
    forall i, j :: 0 <= i < j < |s| ==> s[i] != s[j]
  }

  function ItemOf(version: nat, currency: string, body: NewItem): Item
  {
    var price := Money.ToMinor(body.price, currency);
    Item(version, body.product, body.name, body.isCombo, body.madeToOrder, if price.Ok? then price.value else 0,
         body.components, body.groups)
  }

  /** Why adding an item is refused, in the order the checks are made. */
  function AddItemError(t: Tables, products: Products, restaurant: int, version: nat, body: NewItem): Option<Error>
  {
    var editing := EditError(t.versions, restaurant, version);
    if editing.Some? then editing
    else if KindError(products, restaurant, body).Some? then KindError(products, restaurant, body)
    else if Money.ToMinor(body.price, t.versions[version].currency).Err? then Some(BadAmount)
    else
      var items := t.items + [ItemOf(version, t.versions[version].currency, body)];
      Either(FirstError(body.components, PartError(items, version)),
             Either(FirstError(body.groups, LinkError(t.groups, version)),
                    if AllDifferent(body.groups) then None else Some(DuplicateGroup)))
  }

  function AddGroupError(t: Tables, products: Products, restaurant: int, version: nat, body: NewGroup): Option<Error>
  {
    var editing := EditError(t.versions, restaurant, version);
    if editing.Some? then editing
    else if body.minSelect > body.maxSelect then Some(InvalidModifierGroup)
    else FirstError(body.options, OptionError(products, restaurant, t.versions[version].currency))
  }

  predicate HasItems(items: seq<Item>, version: nat)
  {
    exists i :: 0 <= i < |items| && items[i].version == version
  }

  function PublishError(t: Tables, restaurant: int, version: nat): Option<Error>
  {
    Either(EditError(t.versions, restaurant, version), if HasItems(t.items, version) then None else Some(VersionEmpty))
  }

  // ------------------------------------------------------ what each call does

  /** `coalesce(max(version_no), 0)` of a restaurant. */
  function HighestNo(versions: seq<Version>, restaurant: int): (n: int)
    ensures n >= 0
    ensures forall i :: 0 <= i < |versions| && versions[i].restaurant == restaurant ==> versions[i].versionNo <= n
    ensures n == 0 ||
            exists i :: 0 <= i < |versions| && versions[i].restaurant == restaurant && versions[i].versionNo == n
  {
    if |versions| == 0 then 0
    else
      var last := versions[|versions| - 1];
      var n := HighestNo(versions[..|versions| - 1], restaurant);
      if last.restaurant == restaurant then Max(n, last.versionNo) else n
  }

  function Converted(options: seq<Choice>, currency: string): seq<GroupOption>
  {
    seq(|options|, i requires 0 <= i < |options| =>
      var delta := Money.ToMinor(options[i].priceDelta, currency);
      GroupOption(options[i].name, if delta.Ok? then delta.value else 0, options[i].product))
  }

  function GroupOf(version: nat, currency: string, body: NewGroup): Group
  {
    Group(version, body.name, body.minSelect, body.maxSelect, Converted(body.options, currency))
  }

  predicate IsLive(v: Version, restaurant: int) { v.restaurant == restaurant && v.status.Published? }

  function Retire(v: Version, restaurant: int): Version
  {
    if IsLive(v, restaurant) then v.(status := Archived) else v
  }

  function Retired(versions: seq<Version>, restaurant: int): (r: seq<Version>)
    ensures |r| == |versions|
  {
    seq(|versions|, i requires 0 <= i < |versions| => Retire(versions[i], restaurant))
  }

  /** The versions once `version` is live and whatever was live is archived. */
  function Switched(versions: seq<Version>, restaurant: int, version: nat): seq<Version>
    requires version < |versions|
  {
    var retired := Retired(versions, restaurant);
    retired[version := retired[version].(status := Published)]
  }

  datatype Op =
    | CreateDraft(restaurant: int)
    | AddItem(restaurant: int, version: nat, item: NewItem)
    | AddGroup(restaurant: int, version: nat, group: NewGroup)
    | Publish(restaurant: int, version: nat)

  const DEFAULT_CURRENCY: string := "PKR"

  /** The tables after one call; a refused call changes nothing. */
  function After(t: Tables, products: Products, op: Op): Tables
  {
    match op
    case CreateDraft(r) =>
      t.(versions := t.versions + [Version(r, HighestNo(t.versions, r) + 1, Draft, DEFAULT_CURRENCY)])
    case AddItem(r, v, body) =>
      if AddItemError(t, products, r, v, body).Some? then t
      else t.(items := t.items + [ItemOf(v, t.versions[v].currency, body)])
    case AddGroup(r, v, body) =>
      if AddGroupError(t, products, r, v, body).Some? then t
      else t.(groups := t.groups + [GroupOf(v, t.versions[v].currency, body)])
    case Publish(r, v) =>
      if PublishError(t, r, v).Some? then t else t.(versions := Switched(t.versions, r, v))
  }

  // ------------------------------------------------ exactly what is accepted

  ghost predicate OpenDraft(t: Tables, restaurant: int, version: nat)
  {
    version < |t.versions| && t.versions[version].restaurant == restaurant && t.versions[version].status.Draft?
  }

  /** A combo of components, or one of the restaurant's sellable products. */
  ghost predicate KindFits(products: Products, restaurant: int, body: NewItem)
  {
    if body.isCombo then body.product.None? && |body.components| > 0
    else body.product.Some? && body.product.value in products &&
         products[body.product.value].restaurant == restaurant && products[body.product.value].sellable
  }

  /** A simple item of the version, or the new item itself when it is simple. */
  ghost predicate PartIsSimple(t: Tables, version: nat, body: NewItem, part: nat)
  {
    if part < |t.items| then t.items[part].version == version && !t.items[part].isCombo
    else part == |t.items| && !body.isCombo
  }

  /** Adding an item succeeds if and only if all of this holds. */
  lemma AddItemAcceptance(t: Tables, products: Products, restaurant: int, version: nat, body: NewItem)
    ensures AddItemError(t, products, restaurant, version, body).None? <==>
            && OpenDraft(t, restaurant, version) && KindFits(products, restaurant, body)
            && Money.ToMinor(body.price, t.versions[version].currency).Ok?
            && (forall k :: 0 <= k < |body.components| ==> PartIsSimple(t, version, body, body.components[k]))
            && (forall k :: 0 <= k < |body.groups| ==>
                  body.groups[k] < |t.groups| && t.groups[body.groups[k]].version == version)
            && AllDifferent(body.groups)
  {
    if OpenDraft(t, restaurant, version) {
      var items := t.items + [ItemOf(version, t.versions[version].currency, body)];
      forall k | 0 <= k < |body.components|
        ensures PartError(items, version)(body.components[k]).None? <==>
                  PartIsSimple(t, version, body, body.components[k])
      {
      }
      forall k | 0 <= k < |body.groups|
        ensures LinkError(t.groups, version)(body.groups[k]).None? <==>
                body.groups[k] < |t.groups| && t.groups[body.groups[k]].version == version
      {
      }
    }
  }

  ghost predicate ChoiceFits(products: Products, restaurant: int, currency: string, c: Choice)
  {
    && (c.product.Some? ==> c.product.value in products && products[c.product.value].restaurant == restaurant)
    && Money.ToMinor(c.priceDelta, currency).Ok?
  }

  lemma AddGroupAcceptance(t: Tables, products: Products, restaurant: int, version: nat, body: NewGroup)
    ensures AddGroupError(t, products, restaurant, version, body).None? <==>
            && OpenDraft(t, restaurant, version) && body.minSelect <= body.maxSelect
            && forall k :: 0 <= k < |body.options| ==>
                 ChoiceFits(products, restaurant, t.versions[version].currency, body.options[k])
  {
    if OpenDraft(t, restaurant, version) {
      var currency := t.versions[version].currency;
      forall k | 0 <= k < |body.options|
        ensures OptionError(products, restaurant, currency)(body.options[k]).None? <==>
                ChoiceFits(products, restaurant, currency, body.options[k])
      {
      }
    }
  }

  /** One more than the restaurant's highest version number, or 1. */
  ghost predicate IsNextNo(versions: seq<Version>, restaurant: int, no: int)
  {
    && no > 0 && (forall v :: 0 <= v < |versions| && versions[v].restaurant == restaurant ==>
         versions[v].versionNo < no)
    && (no == 1 || exists v :: 0 <= v < |versions| && versions[v].restaurant == restaurant &&
                     versions[v].versionNo == no - 1)
  }

  ghost predicate Owned(t: Tables, restaurant: int, version: nat)
  {
    version < |t.versions| && t.versions[version].restaurant == restaurant
  }

  /** Everything an item needs to be added. */
  ghost predicate ItemFits(t: Tables, products: Products, restaurant: int, version: nat, body: NewItem)
  {
    && OpenDraft(t, restaurant, version) && KindFits(products, restaurant, body)
    && Money.ToMinor(body.price, t.versions[version].currency).Ok?
    && (forall k :: 0 <= k < |body.components| ==> PartIsSimple(t, version, body, body.components[k]))
    && LinksFit(t, version, body) && AllDifferent(body.groups)
  }

  ghost predicate LinksFit(t: Tables, version: nat, body: NewItem)
  {
    forall k :: 0 <= k < |body.groups| ==> body.groups[k] < |t.groups| && t.groups[body.groups[k]].version == version
  }

  /** What an add-item call answers: accepted exactly when the item fits, and each refusal exactly
      when its own fault comes first. */
  ghost predicate ItemAnswered(result: Result<nat, Error>, t: Tables, products: Products, restaurant: int, version: nat,
                               body: NewItem)
  {
    var draft := OpenDraft(t, restaurant, version);
    && (result.Ok? <==> ItemFits(t, products, restaurant, version, body))
    && (result.Ok? ==> result.value == |t.items|)
    && (result == Err(VersionImmutable) <==> Owned(t, restaurant, version) && !draft)
    && (result == Err(ComboHasNoProduct) <==> draft && body.isCombo && body.product.Some?)
    && (result == Err(ComboNeedsComponents) <==> draft && body.isCombo && body.product.None? && |body.components| == 0)
    && (result == Err(ItemNeedsProduct) <==> draft && !body.isCombo && body.product.None?)
    && (result == Err(NotSellable) <==> draft && !body.isCombo && Unsellable(products, restaurant, body.product))
    && (result == Err(BadAmount) <==> draft && KindFits(products, restaurant, body) &&
                                      Money.ToMinor(body.price, t.versions[version].currency).Err?)
    && (result == Err(NestedCombo) <==> draft && KindFits(products, restaurant, body) &&
                                        Money.ToMinor(body.price, t.versions[version].currency).Ok? &&
                                        NestsCombo(t, version, body))
    && (result == Err(DuplicateGroup) ==> !AllDifferent(body.groups))
  }

  /** The first component that is no simple item of the version is a combo of it. */
  ghost predicate NestsCombo(t: Tables, version: nat, body: NewItem)
  {
    exists k :: 0 <= k < |body.components| && PartIsCombo(t, version, body, body.components[k]) &&
                forall j :: 0 <= j < k ==> PartIsSimple(t, version, body, body.components[j])
  }

  ghost predicate PartIsCombo(t: Tables, version: nat, body: NewItem, part: nat)
  {
    if part < |t.items| then t.items[part].version == version && t.items[part].isCombo
    else part == |t.items| && body.isCombo
  }

  ghost predicate Unsellable(products: Products, restaurant: int, product: Option<int>)
  {
    product.Some? && product.value in products && products[product.value].restaurant == restaurant &&
    !products[product.value].sellable
  }

  /** The error reported over a list is that of the first element that has one. */
  lemma {:induction false} FirstErrorIsFirst<T>(s: seq<T>, check: T -> Option<Error>, k: nat)
    requires k < |s| && forall j :: 0 <= j < k ==> check(s[j]).None?
    ensures check(s[k]).Some? ==> FirstError(s, check) == check(s[k])
    ensures FirstError(s, check).Some? ==>
              exists i :: 0 <= i < |s| && check(s[i]) == FirstError(s, check) &&
                          forall j :: 0 <= j < i ==> check(s[j]).None?
  {
    if check(s[0]).Some? {
      assert FirstError(s, check) == check(s[0]);
    } else if |s| > 1 {
      FirstErrorIsFirst(s[1..], check, if k == 0 then 0 else k - 1);
      if FirstError(s, check).Some? {
        var i :| 0 <= i < |s[1..]| && check(s[1..][i]) == FirstError(s, check) &&
                 forall j :: 0 <= j < i ==> check(s[1..][j]).None?;
        assert check(s[i + 1]) == FirstError(s, check);
        assert forall j :: 1 <= j < i + 1 ==> s[j] == s[1..][j - 1];
      }
    }
  }

  lemma FirstFault<T>(s: seq<T>, check: T -> Option<Error>, e: Error)
    ensures FirstError(s, check) == Some(e) <==>
            exists i :: 0 <= i < |s| && check(s[i]) == Some(e) && forall j :: 0 <= j < i ==> check(s[j]).None?
  {
    if |s| > 0 {
      FirstErrorIsFirst(s, check, 0);
    }
    forall i | 0 <= i < |s| && check(s[i]) == Some(e) && forall j :: 0 <= j < i ==> check(s[j]).None?
      ensures FirstError(s, check) == Some(e)
    {
      FirstErrorIsFirst(s, check, i);
    }
  }

  lemma PartErrors(t: Tables, version: nat, currency: string, body: NewItem)
    ensures var found := FirstError(body.components, PartError(t.items + [ItemOf(version, currency, body)], version));
      && found in [None, Some(NotFound), Some(NestedCombo)]
      && (found == Some(NestedCombo) <==> NestsCombo(t, version, body))
  {
    var check := PartError(t.items + [ItemOf(version, currency, body)], version);
    forall part: nat
      ensures check(part) in [None, Some(NotFound), Some(NestedCombo)]
      ensures check(part).None? <==> PartIsSimple(t, version, body, part)
      ensures check(part) == Some(NestedCombo) <==> PartIsCombo(t, version, body, part)
    {
    }
    if FirstError(body.components, check).Some? {
      FirstFault(body.components, check, FirstError(body.components, check).value);
    }
    FirstFault(body.components, check, NestedCombo);
  }

  lemma LinkErrors(groups: seq<Group>, version: nat, links: seq<nat>)
    ensures FirstError(links, LinkError(groups, version)) in [None, Some(NotFound)]
  {
    var found := FirstError(links, LinkError(groups, version));
    if found.Some? {
      FirstFault(links, LinkError(groups, version), found.value);
    }
  }

  lemma AddItemAnswers(result: Result<nat, Error>, t: Tables, products: Products, restaurant: int, version: nat,
                       body: NewItem)
    requires result == match AddItemError(t, products, restaurant, version, body)
                       case None => Ok(|t.items|)
                       case Some(e) => Err(e)
    ensures ItemAnswered(result, t, products, restaurant, version, body)
  {
    AddItemAcceptance(t, products, restaurant, version, body);
    if OpenDraft(t, restaurant, version) {
      PartErrors(t, version, t.versions[version].currency, body);
      LinkErrors(t.groups, version, body.groups);
    }
  }

  ghost predicate GroupAnswered(result: Result<nat, Error>, t: Tables, products: Products, restaurant: int,
                                version: nat, body: NewGroup)
  {
    var draft := OpenDraft(t, restaurant, version);
    && (result.Ok? <==> draft && body.minSelect <= body.maxSelect &&
                        forall k :: 0 <= k < |body.options| ==>
                          ChoiceFits(products, restaurant, t.versions[version].currency, body.options[k]))
    && (result.Ok? ==> result.value == |t.groups|)
    && (result == Err(VersionImmutable) <==> Owned(t, restaurant, version) && !draft)
    && (result == Err(InvalidModifierGroup) <==> draft && body.minSelect > body.maxSelect)
    && (result.Err? ==> result.error in [NotFound, VersionImmutable, InvalidModifierGroup, BadAmount])
    && (result == Err(BadAmount) <==>
          draft && body.minSelect <= body.maxSelect &&
          HasBadPrice(products, restaurant, t.versions[version].currency, body))
  }

  /** The first option that does not fit has a product that does and a price that does not. */
  ghost predicate HasBadPrice(products: Products, restaurant: int, currency: string, body: NewGroup)
  {
    exists k :: 0 <= k < |body.options| && BadPriceOnly(products, restaurant, currency, body.options[k]) &&
                forall j :: 0 <= j < k ==> ChoiceFits(products, restaurant, currency, body.options[j])
  }

  ghost predicate BadPriceOnly(products: Products, restaurant: int, currency: string, c: Choice)
  {
    && (c.product.Some? ==> c.product.value in products && products[c.product.value].restaurant == restaurant)
    && Money.ToMinor(c.priceDelta, currency).Err?
  }

  lemma OptionErrors(products: Products, restaurant: int, currency: string, body: NewGroup)
    ensures var found := FirstError(body.options, OptionError(products, restaurant, currency));
      && found in [None, Some(NotFound), Some(BadAmount)]
      && (found == Some(BadAmount) <==> HasBadPrice(products, restaurant, currency, body))
  {
    var check := OptionError(products, restaurant, currency);
    forall c: Choice
      ensures check(c) in [None, Some(NotFound), Some(BadAmount)]
      ensures check(c).None? <==> ChoiceFits(products, restaurant, currency, c)
      ensures check(c) == Some(BadAmount) <==> BadPriceOnly(products, restaurant, currency, c)
    {
    }
    if FirstError(body.options, check).Some? {
      FirstFault(body.options, check, FirstError(body.options, check).value);
    }
    FirstFault(body.options, check, BadAmount);
  }

  lemma AddGroupAnswers(result: Result<nat, Error>, t: Tables, products: Products, restaurant: int, version: nat,
                        body: NewGroup)
    requires result == match AddGroupError(t, products, restaurant, version, body)
                       case None => Ok(|t.groups|)
                       case Some(e) => Err(e)
    ensures GroupAnswered(result, t, products, restaurant, version, body)
  {
    AddGroupAcceptance(t, products, restaurant, version, body);
    if OpenDraft(t, restaurant, version) {
      OptionErrors(products, restaurant, t.versions[version].currency, body);
    }
  }

  /** Publishing is accepted exactly for an open draft of the restaurant that has an item. */
  ghost predicate PublishAnswered(result: Result<nat, Error>, t: Tables, restaurant: int, version: nat)
  {
    && (result == Ok(version) <==>
          OpenDraft(t, restaurant, version) && exists i :: 0 <= i < |t.items| && t.items[i].version == version)
    && (result == Err(NotFound) <==> !Owned(t, restaurant, version))
    && (result == Err(VersionImmutable) <==> Owned(t, restaurant, version) && !t.versions[version].status.Draft?)
    && (result == Err(VersionEmpty) <==>
          OpenDraft(t, restaurant, version) && forall i :: 0 <= i < |t.items| ==> t.items[i].version != version)
  }

  lemma PublishAcceptance(t: Tables, restaurant: int, version: nat)
    ensures PublishError(t, restaurant, version).None? <==>
            OpenDraft(t, restaurant, version) && exists i :: 0 <= i < |t.items| && t.items[i].version == version
  {
  }

  /** The version goes live, whatever else the restaurant had live is archived, and no other version changes. */
  ghost predicate GoesLive(before: seq<Version>, after: seq<Version>, restaurant: int, version: nat)
  {
    |after| == |before| &&
    forall v :: 0 <= v < |before| ==>
      after[v] == before[v].(status :=
        if v == version then Published
        else if before[v].restaurant == restaurant && before[v].status.Published? then Archived
        else before[v].status)
  }

  lemma SwitchGoesLive(versions: seq<Version>, restaurant: int, version: nat)
    requires version < |versions|
    ensures GoesLive(versions, Switched(versions, restaurant, version), restaurant, version)
  {
  }

  // ---------------------------------------------------- authoring invariants

  ghost predicate OneLive(versions: seq<Version>)
  {
    forall i, j :: 0 <= i < j < |versions| && versions[i].status.Published? && versions[j].status.Published? ==>
      versions[i].restaurant != versions[j].restaurant
  }

  ghost predicate NumbersUnique(versions: seq<Version>)
  {
    forall i, j :: 0 <= i < j < |versions| && versions[i].restaurant == versions[j].restaurant ==>
      versions[i].versionNo != versions[j].versionNo
  }

  /** Every component is another item of the same version, and not a combo; a combo has
      components and no product, anything else has a product. */
  ghost predicate ItemSound(items: seq<Item>, i: nat)
    requires i < |items|
  {
    && (forall k :: 0 <= k < |items[i].parts| ==>
          items[i].parts[k] < |items| && items[items[i].parts[k]].version == items[i].version &&
          !items[items[i].parts[k]].isCombo)
    && (items[i].isCombo <==> items[i].product.None?)
    && (items[i].isCombo ==> |items[i].parts| > 0)
  }

  ghost predicate ItemsSound(items: seq<Item>)
  {
    forall i :: 0 <= i < |items| ==> ItemSound(items, i)
  }

  /** Every modifier group an item links is its own version's, and linked once. */
  ghost predicate LinksSound(items: seq<Item>, groups: seq<Group>)
  {
    forall i :: 0 <= i < |items| ==>
      AllDifferent(items[i].groups) &&
      forall k :: 0 <= k < |items[i].groups| ==>
        items[i].groups[k] < |groups| && groups[items[i].groups[k]].version == items[i].version
  }

  ghost predicate LiveHasItems(t: Tables)
  {
    forall v :: 0 <= v < |t.versions| && !t.versions[v].status.Draft? ==> HasItems(t.items, v)
  }

  ghost predicate Sound(t: Tables)
  {
    OneLive(t.versions) && NumbersUnique(t.versions) && ItemsSound(t.items) && LinksSound(t.items, t.groups) &&
    LiveHasItems(t)
  }

  lemma ItemsGrowSound(items: seq<Item>, item: Item)
    requires ItemsSound(items) && ItemSound(items + [item], |items|)
    ensures ItemsSound(items + [item])
  {
    var all := items + [item];
    forall i | 0 <= i < |all|
      ensures ItemSound(all, i)
    {
      if i < |items| {
        assert ItemSound(items, i) && all[i] == items[i];
      }
    }
  }

  lemma AddedItemIsSound(t: Tables, products: Products, restaurant: int, version: nat, body: NewItem)
    requires AddItemError(t, products, restaurant, version, body).None?
    ensures ItemSound(t.items + [ItemOf(version, t.versions[version].currency, body)], |t.items|)
  {
    var item := ItemOf(version, t.versions[version].currency, body);
    var items := t.items + [item];
    assert FirstError(body.components, PartError(items, version)).None?;
    forall k | 0 <= k < |item.parts|
      ensures item.parts[k] < |items| && items[item.parts[k]].version == version && !items[item.parts[k]].isCombo
    {
      assert PartError(items, version)(body.components[k]).None?;
    }
  }

  lemma AddedLinksAreSound(t: Tables, products: Products, restaurant: int, version: nat, body: NewItem)
    requires LinksSound(t.items, t.groups) && AddItemError(t, products, restaurant, version, body).None?
    ensures LinksSound(t.items + [ItemOf(version, t.versions[version].currency, body)], t.groups)
  {
    forall k | 0 <= k < |body.groups|
      ensures body.groups[k] < |t.groups| && t.groups[body.groups[k]].version == version
    {
      assert LinkError(t.groups, version)(body.groups[k]).None?;
    }
  }

  lemma HasItemsGrows(items: seq<Item>, item: Item, version: nat)
    requires HasItems(items, version)
    ensures HasItems(items + [item], version)
  {
    var i :| 0 <= i < |items| && items[i].version == version;
    assert (items + [item])[i].version == version;
  }

  lemma AddItemKeepsSound(t: Tables, products: Products, restaurant: int, version: nat, body: NewItem)
    requires Sound(t) && AddItemError(t, products, restaurant, version, body).None?
    ensures Sound(After(t, products, AddItem(restaurant, version, body)))
  {
    var item := ItemOf(version, t.versions[version].currency, body);
    AddedItemIsSound(t, products, restaurant, version, body);
    ItemsGrowSound(t.items, item);
    AddedLinksAreSound(t, products, restaurant, version, body);
    forall v | 0 <= v < |t.versions| && !t.versions[v].status.Draft?
      ensures HasItems(t.items + [item], v)
    {
      HasItemsGrows(t.items, item, v);
    }
  }

  lemma SwitchKeepsOneLive(versions: seq<Version>, restaurant: int, version: nat)
    requires OneLive(versions) && version < |versions| && versions[version].restaurant == restaurant
    ensures OneLive(Switched(versions, restaurant, version))
    ensures forall i :: 0 <= i < |versions| ==>
              (IsLive(Switched(versions, restaurant, version)[i], restaurant) <==> i == version)
  {
  }

  lemma SwitchKeepsNumbers(versions: seq<Version>, restaurant: int, version: nat)
    requires NumbersUnique(versions) && version < |versions|
    ensures NumbersUnique(Switched(versions, restaurant, version))
  {
    var after := Switched(versions, restaurant, version);
    assert forall i :: 0 <= i < |after| ==>
             after[i].versionNo == versions[i].versionNo && after[i].restaurant == versions[i].restaurant;
  }

  /** Every call keeps the authoring invariants. */
  lemma StepKeepsSound(t: Tables, products: Products, op: Op)
    requires Sound(t)
    ensures Sound(After(t, products, op))
  {
    match op
    case CreateDraft(r) =>
    case AddItem(r, v, body) =>
      if AddItemError(t, products, r, v, body).None? {
        AddItemKeepsSound(t, products, r, v, body);
      }
    case AddGroup(r, v, body) =>
    case Publish(r, v) =>
      if PublishError(t, r, v).None? {
        SwitchKeepsOneLive(t.versions, r, v);
        SwitchKeepsNumbers(t.versions, r, v);
      }
  }

  // ----------------------------------------------- what a run never changes

  predicate StatusForward(a: Status, b: Status)
  {
    a == b || a.Draft? || (a.Published? && b.Archived?)
  }

  predicate Forward(a: Version, b: Version)
  {
    b == a.(status := b.status) && StatusForward(a.status, b.status)
  }

  predicate OpenAt(versions: seq<Version>, version: nat)
  {
    version >= |versions| || versions[version].status.Draft?
  }

  /** Versions only move forward; items and groups are only ever added, and never to a
      version that had left DRAFT. */
  ghost predicate Evolves(a: Tables, b: Tables)
  {
    && |a.versions| <= |b.versions|
    && (forall v :: 0 <= v < |a.versions| ==> Forward(a.versions[v], b.versions[v]))
    && a.items <= b.items
    && a.groups <= b.groups
    && (forall i :: |a.items| <= i < |b.items| ==> OpenAt(a.versions, b.items[i].version))
    && (forall g :: |a.groups| <= g < |b.groups| ==> OpenAt(a.versions, b.groups[g].version))
  }

  lemma EvolvesChains(a: Tables, b: Tables, c: Tables)
    requires Evolves(a, b) && Evolves(b, c)
    ensures Evolves(a, c)
  {
    forall v | 0 <= v < |a.versions|
      ensures Forward(a.versions[v], c.versions[v])
    {
      assert Forward(a.versions[v], b.versions[v]) && Forward(b.versions[v], c.versions[v]);
    }
    forall v: nat | OpenAt(b.versions, v)
      ensures OpenAt(a.versions, v)
    {
      if v < |a.versions| {
        assert Forward(a.versions[v], b.versions[v]);
      }
    }
  }

  lemma StepEvolves(t: Tables, products: Products, op: Op)
    ensures Evolves(t, After(t, products, op))
  {
  }

  /** The tables after a run of calls, each against the products as they are at that moment. */
  function Run(t: Tables, calls: seq<(Products, Op)>): Tables
  {
    if |calls| == 0 then t
    else After(Run(t, calls[..|calls| - 1]), calls[|calls| - 1].0, calls[|calls| - 1].1)
  }

  /** Over any run: at most one live version per restaurant, every component a simple item of
      its own version, and nothing that had left DRAFT has changed. */
  lemma {:induction false} RunKeepsSound(t: Tables, calls: seq<(Products, Op)>)
    requires Sound(t)
    ensures Sound(Run(t, calls)) && Evolves(t, Run(t, calls))
  {
    if |calls| != 0 {
      var n := |calls| - 1;
      RunKeepsSound(t, calls[..n]);
      StepKeepsSound(Run(t, calls[..n]), calls[n].0, calls[n].1);
      StepEvolves(Run(t, calls[..n]), calls[n].0, calls[n].1);
      EvolvesChains(t, Run(t, calls[..n]), Run(t, calls));
    }
  }

  /** The keys of a version's items and of its groups. */
  ghost function ItemsIn(t: Tables, version: nat): set<nat>
  {
    set i: nat | i < |t.items| && t.items[i].version == version
  }

  ghost function GroupsIn(t: Tables, version: nat): set<nat>
  {
    set g: nat | g < |t.groups| && t.groups[g].version == version
  }

  /** Once a version has left DRAFT, its items, their components and links, and its groups
      are the same after any run; it can only still go from PUBLISHED to ARCHIVED. */
  lemma {:induction false} PublishedContentNeverChanges(t: Tables, calls: seq<(Products, Op)>, version: nat)
    requires Sound(t) && version < |t.versions| && !t.versions[version].status.Draft?
    ensures var u := Run(t, calls);
      && ItemsIn(u, version) == ItemsIn(t, version) &&
         (forall i :: i in ItemsIn(t, version) ==> u.items[i] == t.items[i])
      && GroupsIn(u, version) == GroupsIn(t, version) &&
         (forall g :: g in GroupsIn(t, version) ==> u.groups[g] == t.groups[g])
      && version < |u.versions| &&
         u.versions[version] in [t.versions[version], t.versions[version].(status := Archived)]
  {
    RunKeepsSound(t, calls);
    var u := Run(t, calls);
    assert Forward(t.versions[version], u.versions[version]);
  }

  // -------------------------------------------------------- the live version

  datatype Live = NoneLive | One(version: nat) | Several

  /** `scalar_one_or_none` over the restaurant's published versions. */
  function LiveOf(versions: seq<Version>, restaurant: int): (r: Live)
    ensures r.NoneLive? <==> forall v :: 0 <= v < |versions| ==> !IsLive(versions[v], restaurant)
    ensures r.One? ==> r.version < |versions| && IsLive(versions[r.version], restaurant)
    ensures r.Several? ==>
              exists i, j ::
                0 <= i < j < |versions| && IsLive(versions[i], restaurant) && IsLive(versions[j], restaurant)
  {
    if |versions| == 0 then NoneLive
    else
      var last := |versions| - 1;
      var before := LiveOf(versions[..last], restaurant);
      if !IsLive(versions[last], restaurant) then before
      else if before.NoneLive? then One(last)
      else Several
  }

  lemma LiveIsUnambiguous(t: Tables, restaurant: int)
    requires Sound(t)
    ensures !LiveOf(t.versions, restaurant).Several?
  {
  }

  /** A successful publish makes exactly that version the one the tills read. */
  lemma PublishMakesLive(t: Tables, products: Products, restaurant: int, version: nat)
    requires Sound(t) && PublishError(t, restaurant, version).None?
    ensures LiveOf(After(t, products, Publish(restaurant, version)).versions, restaurant) == One(version)
    ensures forall other :: other != restaurant ==>
              LiveOf(After(t, products, Publish(restaurant, version)).versions, other) == LiveOf(t.versions, other)
  {
    var after := Switched(t.versions, restaurant, version);
    SwitchKeepsOneLive(t.versions, restaurant, version);
    StepKeepsSound(t, products, Publish(restaurant, version));
    LiveIsUnambiguous(After(t, products, Publish(restaurant, version)), restaurant);
    assert IsLive(after[version], restaurant);
    forall other | other != restaurant
      ensures LiveOf(after, other) == LiveOf(t.versions, other)
    {
      SameLive(t.versions, after, other);
    }
  }

  lemma {:induction false} SameLive(a: seq<Version>, b: seq<Version>, restaurant: int)
    requires |a| == |b| && forall i :: 0 <= i < |a| ==> (IsLive(a[i], restaurant) <==> IsLive(b[i], restaurant))
    ensures LiveOf(a, restaurant) == LiveOf(b, restaurant)
  {
    if |a| != 0 {
      SameLive(a[..|a| - 1], b[..|b| - 1], restaurant);
    }
  }

  // ------------------------------------------------------------- the service

  method FirstFailure<T>(s: seq<T>, check: T -> Option<Error>) returns (e: Option<Error>)
    ensures e == FirstError(s, check)
  {
    var k := 0;
    while k < |s|
      invariant 0 <= k <= |s|
      invariant FirstError(s, check) == FirstError(s[k..], check)
    {
      if check(s[k]).Some? {
        return check(s[k]);
      }
      assert s[k..][1..] == s[k + 1..];
      k := k + 1;
    }
    return None;
  }

  /** The stored item is the one that was asked for, at its price in minor units. */
  predicate Describes(item: Item, version: nat, currency: string, body: NewItem)
  {
    && item.version == version && item.product == body.product && item.name == body.name
    && item.isCombo == body.isCombo && item.madeToOrder == body.madeToOrder
    && Money.ToMinor(body.price, currency) == Ok(item.priceMinor)
    && item.parts == body.components && item.groups == body.groups
  }

  predicate GroupDescribes(group: Group, version: nat, currency: string, body: NewGroup)
  {
    && group.version == version && group.name == body.name
    && group.minSelect == body.minSelect && group.maxSelect == body.maxSelect
    && |group.options| == |body.options|
    && forall i :: 0 <= i < |body.options| ==>
         && group.options[i].name == body.options[i].name && group.options[i].product == body.options[i].product
         && Money.ToMinor(body.options[i].priceDelta, currency) == Ok(group.options[i].priceDeltaMinor)
  }

  class MenuService {
    var versions: seq<Version>
    var items: seq<Item>
    var groups: seq<Group>

    ghost function State(): Tables
      reads this
    {
      Tables(versions, items, groups)
    }

    ghost predicate Valid()
      reads this
    {
      Sound(State())
    }

    constructor ()
      ensures Valid() && State() == Tables([], [], [])
    {
      versions, items, groups := [], [], [];
    }

    method CreateDraft(products: Products, restaurant: int) returns (version: nat)
      requires Valid()
      modifies this
      ensures Valid() && State() == After(old(State()), products, Op.CreateDraft(restaurant)) &&
              version == |old(versions)|
      ensures items == old(items) && groups == old(groups)
      ensures exists no :: IsNextNo(old(versions), restaurant, no) &&
                           versions == old(versions) + [Version(restaurant, no, Draft, "PKR")]
    {
      StepKeepsSound(State(), products, Op.CreateDraft(restaurant));
      assert IsNextNo(versions, restaurant, HighestNo(versions, restaurant) + 1);
      version := |versions|;
      versions := versions + [Version(restaurant, HighestNo(versions, restaurant) + 1, Draft, DEFAULT_CURRENCY)];
    }

    method AddItem(products: Products, restaurant: int, version: nat, body: NewItem)
      returns (result: Result<nat, Error>)
      requires Valid()
      modifies this
      ensures Valid() && State() == After(old(State()), products, Op.AddItem(restaurant, version, body))
      ensures result == match AddItemError(old(State()), products, restaurant, version, body)
                        case None => Ok(|old(items)|)
                        case Some(e) => Err(e)
      ensures ItemAnswered(result, old(State()), products, restaurant, version, body)
      ensures versions == old(versions) && groups == old(groups) && (result.Err? ==> items == old(items))
      ensures result.Ok? ==>
                result.value < |items| && version < |versions| &&
                Describes(items[result.value], version, versions[version].currency, body)
    {
      StepKeepsSound(State(), products, Op.AddItem(restaurant, version, body));
      AddItemAnswers(match AddItemError(State(), products, restaurant, version, body)
                     case None => Ok(|items|)
                     case Some(e) => Err(e), State(), products, restaurant, version, body);
      var editing := EditError(versions, restaurant, version);
      if editing.Some? {
        return Err(editing.value);
      }
      var kind := KindError(products, restaurant, body);
      if kind.Some? {
        return Err(kind.value);
      }
      var currency := versions[version].currency;
      if Money.ToMinor(body.price, currency).Err? {
        return Err(BadAmount);
      }
      var flushed := items + [ItemOf(version, currency, body)];
      var part := FirstFailure(body.components, PartError(flushed, version));
      if part.Some? {
        return Err(part.value);
      }
      var link := FirstFailure(body.groups, LinkError(groups, version));
      if link.Some? {
        return Err(link.value);
      }
      if !AllDifferent(body.groups) {
        return Err(DuplicateGroup);
      }
      items := flushed;
      return Ok(|items| - 1);
    }

    method AddModifierGroup(products: Products, restaurant: int, version: nat, body: NewGroup)
      returns (result: Result<nat, Error>)
      requires Valid()
      modifies this
      ensures Valid() && State() == After(old(State()), products, Op.AddGroup(restaurant, version, body))
      ensures result == match AddGroupError(old(State()), products, restaurant, version, body)
                        case None => Ok(|old(groups)|)
                        case Some(e) => Err(e)
      ensures GroupAnswered(result, old(State()), products, restaurant, version, body)
      ensures versions == old(versions) && items == old(items) && (result.Err? ==> groups == old(groups))
      ensures result.Ok? ==>
                result.value < |groups| && version < |versions| &&
                GroupDescribes(groups[result.value], version, versions[version].currency, body)
    {
      StepKeepsSound(State(), products, Op.AddGroup(restaurant, version, body));
      AddGroupAnswers(match AddGroupError(State(), products, restaurant, version, body)
                      case None => Ok(|groups|)
                      case Some(e) => Err(e), State(), products, restaurant, version, body);
      var editing := EditError(versions, restaurant, version);
      if editing.Some? {
        return Err(editing.value);
      }
      if body.minSelect > body.maxSelect {
        return Err(InvalidModifierGroup);
      }
      var currency := versions[version].currency;
      var failed := FirstFailure(body.options, OptionError(products, restaurant, currency));
      if failed.Some? {
        return Err(failed.value);
      }
      AddGroupAcceptance(State(), products, restaurant, version, body);
      groups := groups + [GroupOf(version, currency, body)];
      return Ok(|groups| - 1);
    }

    method Publish(products: Products, restaurant: int, version: nat) returns (result: Result<nat, Error>)
      requires Valid()
      modifies this
      ensures Valid() && State() == After(old(State()), products, Op.Publish(restaurant, version))
      ensures result == match PublishError(old(State()), restaurant, version)
                        case None => Ok(version)
                        case Some(e) => Err(e)
      ensures PublishAnswered(result, old(State()), restaurant, version)
      ensures items == old(items) && groups == old(groups) && (result.Err? ==> versions == old(versions))
      ensures result.Ok? ==> GoesLive(old(versions), versions, restaurant, version)
    {
      StepKeepsSound(State(), products, Op.Publish(restaurant, version));
      var editing := EditError(versions, restaurant, version);
      if editing.Some? {
        return Err(editing.value);
      }
      if !HasItems(items, version) {
        return Err(VersionEmpty);
      }
      SwitchGoesLive(versions, restaurant, version);
      ArchiveLive(restaurant);
      versions := versions[version := versions[version].(status := Published)];
      return Ok(version);
    }

    /** Archive whatever was live. */
    method ArchiveLive(restaurant: int)
      modifies this`versions
      ensures versions == Retired(old(versions), restaurant)
    {
      var k := 0;
      while k < |versions|
        invariant 0 <= k <= |versions| == |old(versions)|
        invariant forall i :: 0 <= i < k ==> versions[i] == Retire(old(versions)[i], restaurant)
        invariant forall i :: k <= i < |versions| ==> versions[i] == old(versions)[i]
      {
        if IsLive(versions[k], restaurant) {
          versions := versions[k := versions[k].(status := Archived)];
        }
        k := k + 1;
      }
    }

    /** Reading the live menu never meets two of them. */
    method GetPublished(restaurant: int) returns (result: Result<nat, Error>)
      requires Valid()
      ensures result.Ok? ==> result.value < |versions| && IsLive(versions[result.value], restaurant)
      ensures result.Ok? ==> forall v :: 0 <= v < |versions| && IsLive(versions[v], restaurant) ==> v == result.value
      ensures result.Err? <==> forall v :: 0 <= v < |versions| ==> !IsLive(versions[v], restaurant)
      ensures result.Err? ==> result.error == NotFound
      ensures forall v :: result == Ok(v) <==>
                0 <= v < |versions| && versions[v].restaurant == restaurant && versions[v].status.Published?
    {
      LiveIsUnambiguous(State(), restaurant);
      match LiveOf(versions, restaurant)
      case NoneLive => result := Err(NotFound);
      case One(v) => result := Ok(v);
      case Several => assert false;
    }
  }
}
