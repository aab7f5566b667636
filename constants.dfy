/** The category registry: the literal `CATEGORIES` list and the lookup map
    `CATEGORY_MAP` built from it by a left fold that writes one key per step. */
module Constants {
  import opened Types

  /** A registry entry; the icon component is rendering only and is left out. */
  datatype Category = Category(key: CategoryKey, name: string, description: string)

  const CATEGORIES: seq<Category> := [
    Category(Fortune, "오늘의 운세", "생년월일로 알아보는 오늘의 운세"),
    Category(Economics, "경제 상식", "부동산, ETF, 채권 등 필수 용어"),
    Category(Health, "건강 (스트레칭)", "거북목, 라운드 숄더 교정 운동"),
    Category(Quiz, "퀴즈형 학습", "상식, 역사, 과학 퀴즈"),
    Category(Conversation, "오늘의 회화", "여행에서 유용한 영어/일본어 회화")
  ]

  /** One step of the reduce: `acc[category.key] = category`. */
  function ReduceStep(acc: map<CategoryKey, Category>, c: Category): map<CategoryKey, Category> {
    acc[c.key := c]
  }

  /** The reduce over a prefix of the list, starting from `{}`. */
  function Reduced(cats: seq<Category>): map<CategoryKey, Category>
  {
    if cats == [] then map[] else ReduceStep(Reduced(cats[..|cats| - 1]), cats[|cats| - 1])
  }

  /** Each reduce step adds exactly its own key and leaves every earlier key as it was. */
  lemma ReduceStepAddsOneKey(cats: seq<Category>, c: Category)
    ensures Reduced(cats + [c]).Keys == Reduced(cats).Keys + {c.key}
    ensures Reduced(cats + [c])[c.key] == c
    ensures forall k :: k in Reduced(cats) && k != c.key ==> Reduced(cats + [c])[k] == Reduced(cats)[k]
  {
    assert (cats + [c])[..|cats + [c]| - 1] == cats;
  }

  /** Some entry of `cats` carries key `k`. */
  predicate Lists(cats: seq<Category>, k: CategoryKey) {
    exists i :: 0 <= i < |cats| && cats[i].key == k
  }

  /** The keys of the folded map are exactly the keys of the list. */
  lemma {:induction false} ReducedKeys(cats: seq<Category>)
    ensures forall k :: k in Reduced(cats) <==> Lists(cats, k)
  {
    if cats != [] {
      var init := cats[..|cats| - 1];
      ReducedKeys(init);
      forall k ensures k in Reduced(cats) <==> Lists(cats, k) {
        if k in Reduced(cats) && k != cats[|cats| - 1].key {
          assert k in Reduced(init);
          var i :| 0 <= i < |init| && init[i].key == k;
          assert cats[i].key == k;
        }
        if Lists(cats, k) && k != cats[|cats| - 1].key {
          var i :| 0 <= i < |cats| && cats[i].key == k;
          assert init[i].key == k;
        }
        if k == cats[|cats| - 1].key {
          assert cats[|cats| - 1].key == k;
        }
      }
    }
  }

  /** With distinct keys, the folded map sends each listed key to its own entry. */
  lemma {:induction false} ReducedLookup(cats: seq<Category>)
    requires forall i, j :: 0 <= i < j < |cats| ==> cats[i].key != cats[j].key
    ensures forall i :: 0 <= i < |cats| ==> cats[i].key in Reduced(cats) && Reduced(cats)[cats[i].key] == cats[i]
  {
    if cats != [] {
      var init := cats[..|cats| - 1];
      ReducedLookup(init);
      forall i | 0 <= i < |cats| ensures cats[i].key in Reduced(cats) && Reduced(cats)[cats[i].key] == cats[i] {
        if i < |cats| - 1 {
          assert init[i] == cats[i];
        }
      }
    }
  }

  /** `CATEGORIES` lists the five categories in their display order, with distinct keys. */
  lemma CategoriesListing()
    ensures |CATEGORIES| == 5
    ensures CATEGORIES[0].key == Fortune && CATEGORIES[1].key == Economics && CATEGORIES[2].key == Health
    ensures CATEGORIES[3].key == Quiz && CATEGORIES[4].key == Conversation
    ensures forall i, j :: 0 <= i < j < |CATEGORIES| ==> CATEGORIES[i].key != CATEGORIES[j].key
    ensures forall k: CategoryKey :: Lists(CATEGORIES, k)
  {
    forall k: CategoryKey ensures Lists(CATEGORIES, k) {
      match k
      case Fortune => assert CATEGORIES[0].key == k;
      case Economics => assert CATEGORIES[1].key == k;
      case Health => assert CATEGORIES[2].key == k;
      case Quiz => assert CATEGORIES[3].key == k;
      case Conversation => assert CATEGORIES[4].key == k;
    }
  }

  /** `CATEGORY_MAP`: total over `CategoryKey`, and `CATEGORY_MAP[c.key] == c` for every listed `c`. */
  function CategoryMap(): (m: map<CategoryKey, Category>)
    ensures forall k: CategoryKey :: k in m && m[k].key == k
    ensures forall i :: 0 <= i < |CATEGORIES| ==> m[CATEGORIES[i].key] == CATEGORIES[i]
  {
    CategoriesListing();
    ReducedKeys(CATEGORIES);
    ReducedLookup(CATEGORIES);
    Reduced(CATEGORIES)
  }

  /** The display name the ledger snapshots into a log entry. */
  function CategoryName(k: CategoryKey): string {
    CategoryMap()[k].name
  }

  /** The reduce as the source runs it: an accumulator updated key by key. */
  method BuildCategoryMap(cats: seq<Category>) returns (acc: map<CategoryKey, Category>)
    ensures acc == Reduced(cats)
    ensures forall k :: k in acc <==> Lists(cats, k)
  {
    acc := map[];
    var n := 0;
    while n < |cats|
      invariant 0 <= n <= |cats|
      invariant acc == Reduced(cats[..n])
    {
      assert cats[..n + 1][..n] == cats[..n];
      acc := acc[cats[n].key := cats[n]];
      n := n + 1;
    }
    assert cats[..n] == cats;
    ReducedKeys(cats);
  }
}
